# CampusAgent protocols and algorithms, modelled and proved in Dafny

A model of the parts of the CampusAgent repository that are state machines or algorithms with properties over
whole runs, and proofs of those properties in Dafny. The project file is `dfyconfig.toml`.

How the model is laid out:

- Every operation has a pure specification function (a `Step`, `Chat`, `Check`, `Ranking`, ... over values), and
  the theorems are about those functions.
- Two kinds of theorem go together: what every operation keeps over whole runs, and what one operation answers and
  changes, stated over the rows, claims and messages before and after it.
- Where the source changes things in place there is also a class with the same fields, or a method with the same
  loop, and its `ensures` equates its new state and result with the specification function. So what is proved of
  the function holds of the imperative form.
- A run is a `Trace`: the states, the operations and their results, consecutive ones linked by one `Step`. Every
  theorem over runs holds for every operation sequence and every length.

| module | what it models |
|---|---|
| `AuthModel`, `AuthTheorems`, `AuthEffects`, `AuthServiceModel` | refresh-token rotation with replay detection (section 10.4 of RFC 6749, section 4.14.2 of RFC 9700): register, login, refresh, logout, account deletion, commit and rollback |
| `GatewayModel`, `GatewayTheorems`, `GatewayServiceModel` | the model gateway: privacy gate, provider selection, fallback, validation retries |
| `RateLimitModel` | the sliding-window rate limiter |
| `BreakerModel`, `NodeHealthModel` | the circuit breaker and the node health checker |
| `RealtimeModel`, `RealtimeTheorems`, `ReconnectModel`, `RealtimeObjects` | numbering and deduplication on the server, deduplication, gap detection and the reconnect budget on the client |
| `MessagesModel` | the conversation log: sequence numbers, idempotency keys, soft deletion |
| `OrgGroupModel` | replication of organization memberships into the organization's group conversation |
| `ContactsModel` | contact requests |
| `ModelRouteModel`, `ModelRouteStore` | a student's own model service profiles: the typed route, and the JSON dictionary it is stored, merged over defaults and changed as |
| `OrgTreeModel`, `OrgTreeTheorems` | the depth-bounded, visibility-filtered organization tree |
| `RankingModel` | the rule provider's candidate ranking |
| `DebateModel` | grouping debate turns for display |
| `FailureInjectionModel` | the mock provider's deterministic failure injection |
| `StableSort` | what a stable sort promises, used for the two library sorts |
| `Texts` | the order of texts |
| `Wrappers` | the option type |

## Assumptions

- Requests on one database are serialised, and a request that raises before `commit` leaves the database as it was
  (`apps/api/src/dependencies.py:41-48`).
- Generated ids (UUIDs, `jti`, `family_id`) are fresh: each operation carries the ids it draws, and a run draws new
  ones. Hashing of a `jti` is injective. A JWT's signature verifies exactly when the server signed those claims.
  PyJWT refuses a token from the second its `exp` names.
- Clock readings are parameters. A theorem that needs them ordered says so; the rate limiter is also treated with
  readings that arrive out of order.
- Numbers the source keeps as floats are reals; rounding to four places is modelled (ties to even).
- The encrypted column gives back the JSON value that was put into it, or cannot be read: encryption and the JSON
  library are inverse to their counterparts.
- What a model provider does (answer, malformed answer, timeout, error, crash) and what a health probe reports is
  decided by an arbitrary environment.

## Where the code and its own words differ

The model follows the code.

- `apps/api/src/modules/auth/service.py:457` says logout revokes the current session; the code revokes every active
  session of the user (lines 485-494).
- The check for an inactive session at `apps/api/src/modules/auth/service.py:402` can never fire
  (`AuthTheorems.InactiveSessionUnreachable`).
- The gateway router's header names the fallback order local, mock, rule; the priorities give rule (80) before mock (90)
  (`GatewayTheorems.LocalFailureFallsBackToRule`).
- The gate `is_provider_allowed_by_privacy` ignores the data classification. It agrees with the router's gate on every
  context the request schema can produce, and `GatewayTheorems.GatesAgree` says exactly on which others it does not.
- The rate limiter reads the clock before it takes its lock, so readings can enter the list out of order. With two or
  more requests allowed and readings out of order by at most `d`, the interval lengths it guards are exactly those up
  to the window less `d`: every longer interval is overfull on some run. A limit of one guards the whole window
  (`RateLimitModel.GuardedIff`; an instance is `RateLimitModel.OutOfOrderOverLimit`).
- The breaker's documentation lets a single probe through when half open; the code lets every caller through until a
  result is recorded (`BreakerModel.HalfOpenAdmitsAll`). A single probe goes out exactly when one caller asked before
  the failing result was recorded (`BreakerModel.SingleProbeIff`).
- The server's event cache is described as FIFO, but `add` moves a known id to the end. On the send path that branch is
  never taken (`RealtimeTheorems.CachesAgreeOnSendPath`).
- The backoff schedule lists an immediate first retry; the failure count is already 1 when the first delay is computed,
  so the first delay is the second entry.
- The organization group's sync functions say that events call them; nothing in the repository does. So a membership
  change and a sync call are separate steps here. The group mirrors the memberships exactly when, for every user, the
  last call about the user says what the memberships say (`OrgGroupModel.ReplicatedIffCallsAgree`); a run that misses
  a call is in `OrgGroupModel.MissedCallFails`.
- A greeting that cannot be sent leaves the connection registered: the endpoint's clean-up starts only after `connect`
  returned (`apps/api/src/realtime/api.py:144-163`).
- The ranking's sort is called deterministic by id. Candidates whose entries differ but tie in passing, score and id
  keep their input order (`RankingModel.OrderFreeIff`).
- The grouping of debate turns shows only the last turn of a slot (`DebateModel.NothingLostIff`,
  `DebateModel.SecondOpeningReplaces`).
- The unreadable-route error asks the user to save the route again, but saving loads the old value first and fails the
  same way (`ModelRouteStore.UnreadableForever`).
- `reason_codes` contains `within_budget` for every candidate that passes, also when no budget was given.

## Model

| member | source | states |
|---|---|---|
| AuthTheorems.ReachableInv | apps/api/src/modules/auth/service.py:146-175 | In every reachable state each session's family is a chain of exactly `session_version` tokens in issue order: all but the last USED, the last ACTIVE if the session is and REVOKED otherwise; every signed refresh token is backed by the one row its claims describe |
| AuthTheorems.RunIsLater | apps/api/src/modules/auth/service.py:499-527 | Between any two points of a run no row disappears, USED and REVOKED tokens stay so, and a session's status only moves ACTIVE, REVOKED, COMPROMISED in that order |
| AuthTheorems.RefreshSucceedsIff | apps/api/src/modules/auth/service.py:325-448 | A refresh succeeds if and only if the token decodes, is the newest of its family, the family's session is active, the stored expiry has not passed, and the user exists and is not barred |
| AuthTheorems.InactiveSessionUnreachable | apps/api/src/modules/auth/service.py:399-403 | No refresh in a consistent state is ever rejected for a missing or inactive session |
| AuthTheorems.StoredExpiryNeedsARace | apps/api/src/modules/auth/service.py:383-391 | The stored-expiry rejection needs the clock to cross the JWT's `exp` between decoding and the check |
| AuthTheorems.VersionCountsTokens | apps/api/src/modules/auth/service.py:405-448 | The version a refresh returns is the number of tokens the family has ever had, one more than before |
| AuthTheorems.RefreshTouchesOneFamily | apps/api/src/modules/auth/service.py:375-397 | Whatever a refresh answers, a replay included, all users and the tokens and sessions of every other family stay as they were |
| AuthTheorems.ExchangedAtMostOnce | apps/api/src/modules/auth/service.py:375-397 | Over any run, once a refresh token was exchanged, every later presentation is a replay while it decodes and invalid afterwards |
| AuthTheorems.DeadFamilyStaysDead | apps/api/src/modules/auth/service.py:379-403 | Once a family's session is not active, no later refresh in that family succeeds |
| AuthTheorems.ReplayEndsFamily | apps/api/src/modules/auth/service.py:375-379 | After a used token was presented, no refresh in its family ever succeeds again |
| AuthTheorems.LogoutEndsSessions | apps/api/src/modules/auth/service.py:485-496 | After a logout no refresh token issued to that user before it buys anything |
| AuthEffects.NextRefreshSucceeds | apps/api/src/modules/auth/service.py:325-448 | From any consistent state: a refresh with the token a register, login or refresh has just handed out, before its expiry and with the user not barred, succeeds |
| AuthEffects.StepHandsOut | apps/api/src/modules/auth/service.py:443-448 | Every register, login and refresh that succeeds hands out a refresh token that is the newest of its active family, with the drawn id, the same user and session, an access token of that user, and both expiries from the settings |
| AuthEffects.RefreshHandsOut | apps/api/src/modules/auth/service.py:405-448 | A rotation hands out the new token of the same user, session and family, never the one presented |
| AuthEffects.LoginSucceedsIff | apps/api/src/modules/auth/service.py:225-306 | A login succeeds if and only if some user has that email, that password and a status neither disabled nor deleted; it then adds one session and one token for that user and keeps every older row, and otherwise changes nothing and answers only that the credentials are invalid |
| AuthEffects.RegisterSucceedsIff | apps/api/src/modules/auth/service.py:68-206 | A registration succeeds if and only if the password is strong and email, student number and phone are not in use; it then adds one active account with one session, and otherwise changes nothing |
| AuthEffects.RefreshAnswers | apps/api/src/modules/auth/service.py:355-391 | A token that does not decode is invalid; one that does has a row, whose status and expiry decide exactly between replayed, revoked and expired |
| AuthEffects.RejectedRefreshChanges | apps/api/src/modules/auth/service.py:375-403 | A replay compromises the sessions of its family and revokes its tokens that were not used, and nothing else; every other rejection changes nothing |
| AuthEffects.LogoutSignsOut | apps/api/src/modules/auth/service.py:451-496 | A logout is done exactly for a live access token of an account that is not deleted, and revokes exactly that user's active sessions and tokens |
| AuthEffects.DeletionSignsOut | apps/api/src/modules/users/service.py:98-128 | A deleted account can no longer log in or be found, its active sessions and tokens are revoked, and the other accounts and sessions stay as they were |
| AuthServiceModel.AuthService.Register | apps/api/src/modules/auth/service.py:68-206 | The row-by-row registration with its commit is the specified step: rejected, or one new user, session and active token |
| AuthServiceModel.AuthService.Login | apps/api/src/modules/auth/service.py:225-306 | The login with its commit is the specified step |
| AuthServiceModel.AuthService.Refresh | apps/api/src/modules/auth/service.py:325-448 | The rotation, which marks rows before its last checks and rolls back when they fail, is the specified atomic step |
| AuthServiceModel.AuthService.Logout | apps/api/src/modules/auth/service.py:451-496 | The loop over active sessions is one revocation of all their families |
| AuthServiceModel.AuthService.DeleteAccount | apps/api/src/modules/users/service.py:98-128 | Deletion bars the user and revokes the families of the active sessions in one step |
| AuthServiceModel.AuthService.RevokeFamily | apps/api/src/modules/auth/service.py:499-527 | The two loops revoke exactly the family's tokens that are not USED and mark exactly its sessions |
| AuthServiceModel.AuthService.RevokeActive | apps/api/src/modules/auth/service.py:485-494 | Revoking session by session equals revoking all their families at once |
| AuthServiceModel.AuthService.Rollback | apps/api/src/dependencies.py:41-48 | Restores the committed rows after an exception |
| GatewayTheorems.SelectIsLeast | apps/api/src/modules/model_gateway/router.py:104-163 | A candidate is selected if and only if it is eligible and healthy (by its cached health) and comes before every other such candidate in stable priority order |
| GatewayTheorems.SelectErrors | apps/api/src/modules/model_gateway/router.py:130-163 | "No eligible provider" exactly for an empty list; the blocked-external error exactly when all candidates are external and the context blocks them; "all unhealthy" exactly when some are eligible and none of those is healthy |
| GatewayTheorems.FallbackIsLeast | apps/api/src/modules/model_gateway/router.py:165-188 | A fallback is chosen if and only if it is the first healthy, allowed, local candidate not excluded by name |
| GatewayTheorems.GatesAgree | apps/api/src/modules/model_gateway/schemas.py:64-81 | The two privacy gates agree on all providers if and only if the context is not a sensitive one that still allows external processing, hence on every normalised context |
| GatewayTheorems.NormaliseTightens | apps/api/src/modules/model_gateway/schemas.py:64-73 | Building a context takes external processing from P3 and P4 data, keeps P4 data local, and changes nothing else |
| GatewayTheorems.OrderIsSorted | apps/api/src/modules/model_gateway/router.py:126-128 | That order is the stable one: by priority, then by position, each index once |
| GatewayTheorems.ChatCalls | apps/api/src/modules/model_gateway/service.py:206-263 | For every environment a run makes at most 4 calls, at most 2 without a schema, at most 3 without fallback, exactly one without either once a provider is selected; all calls after the first go to local providers or back to the first |
| GatewayTheorems.ExternalCallsAreAllowed | apps/api/src/modules/model_gateway/schemas.py:75-81 | Every external provider ever called is the one selected first, for P0-P2 data that allows external processing and does not require local |
| GatewayTheorems.FirstCallIsSelected | apps/api/src/modules/model_gateway/service.py:225-240 | The first call goes to the selected candidate |
| GatewayTheorems.AnsweredIffLastCallGood | apps/api/src/modules/model_gateway/service.py:403-449 | A run answers if and only if its last call completed, with a valid answer when a schema was given |
| GatewayTheorems.RetriesMoveOn | apps/api/src/modules/model_gateway/service.py:403-449 | A validation retry goes back to the selected provider or to a name not asked since validation began |
| GatewayTheorems.SecondCallIff | apps/api/src/modules/model_gateway/service.py:355-401 | A second call before validation happens if and only if fallback is allowed, the first call timed out or failed, and some healthy allowed local candidate has another name; it goes to the first such candidate, and the last call decides the result |
| GatewayTheorems.ChatFallsBackIff | apps/api/src/modules/model_gateway/service.py:206-263 | The same for a whole run whose selected provider times out or fails |
| GatewayTheorems.ChatValidates | apps/api/src/modules/model_gateway/service.py:403-449 | With a schema, a run whose call or fallback completed is exactly the validation retries, which avoid the selected provider's name from the start; without one the first complete answer is returned |
| GatewayTheorems.ValidationRetries | apps/api/src/modules/model_gateway/service.py:403-449 | A retry happens exactly after a malformed answer with retries left; it goes to the first healthy allowed local candidate of a new name, or back to the selected one where there is none, and what it does not repair is reported |
| GatewayTheorems.FourCallsHappen | apps/api/src/modules/model_gateway/service.py:355-449 | The bound of 4 calls is reached with the standard candidates |
| GatewayTheorems.DefaultsAlwaysRoute | apps/api/src/modules/model_gateway/router.py:191-216 | With the standard candidates every context gets a provider |
| GatewayTheorems.DefaultsChoose | apps/api/src/modules/model_gateway/router.py:191-216 | Among the standard candidates a healthy local node is chosen, else a healthy external one where the context allows it, else the rule engine |
| GatewayTheorems.DefaultsAlwaysFallBack | apps/api/src/modules/model_gateway/service.py:355-401 | With the standard candidates a call that times out or fails always gets a second one, to a local provider |
| GatewayTheorems.LocalFailureFallsBackToRule | apps/api/src/modules/model_gateway/service.py:355-401 | The second call of a run whose local node fails goes to the rule engine, not to the mock provider and not to the node again |
| GatewayServiceModel.RoutingPolicy.Select | apps/api/src/modules/model_gateway/router.py:104-163 | The loop that caches health as it goes returns the specified selection and caches exactly the candidates it asked |
| GatewayServiceModel.RoutingPolicy.Partition | apps/api/src/modules/model_gateway/router.py:126-142 | The first loop collects the eligible candidates in priority order and notes whether an external one was blocked |
| GatewayServiceModel.RoutingPolicy.SelectForFallback | apps/api/src/modules/model_gateway/router.py:165-188 | The loop returns the specified fallback |
| GatewayServiceModel.ModelGatewayService.CallWithFallback | apps/api/src/modules/model_gateway/service.py:355-401 | The call with its one fallback is the specified one |
| GatewayServiceModel.ModelGatewayService.ValidateWithRetry | apps/api/src/modules/model_gateway/service.py:403-449 | The retry loop with its growing exclusion set is the specified recursion |
| GatewayServiceModel.ModelGatewayService.Chat | apps/api/src/modules/model_gateway/service.py:206-263 | The pipeline, whose selection fills health caches that later steps do not read, is the specified one |
| RateLimitModel.ListIsHistory | apps/api/src/modules/auth/rate_limit.py:49-61 | The pruned list agrees with the full history of allowed calls from every cutoff no call has looked past |
| RateLimitModel.DeniedIffWindowFull | apps/api/src/modules/auth/rate_limit.py:52-61 | With readings in lock order a call is denied if and only if its window already holds `max_requests` allowed calls |
| RateLimitModel.NeverOverLimit | apps/api/src/modules/auth/rate_limit.py:38-61 | With readings out of order by at most `d`, no interval of length `window - d` ever holds more than `max_requests` allowed calls of a key (one half of GuardedIff) |
| RateLimitModel.OrderedNeverOverLimit | apps/api/src/modules/auth/rate_limit.py:38-61 | With readings in lock order, no interval `(x - window, x]` does |
| RateLimitModel.GuardedIff | apps/api/src/modules/auth/rate_limit.py:38-61 | For every limit, window and skew `d`: no run with readings out of order by at most `d` ever admits too many calls in an interval of this length, if and only if the length is at most the window less `d` (the whole window for a limit of one, any length for a limit of zero) |
| RateLimitModel.OverInLateRun | apps/api/src/modules/auth/rate_limit.py:49-56 | A run that overfills any longer interval: a full load, a call one window later, and one that read its clock up to `d` before that |
| RateLimitModel.OutOfOrderOverLimit | apps/api/src/modules/auth/rate_limit.py:49-50 | An instance with two requests in 60 seconds and a reading 40 seconds late |
| RateLimitModel.KeysAreDistinct | apps/api/src/modules/auth/rate_limit.py:48-50 | Different endpoint and address pairs have different keys when endpoints contain no colon |
| RateLimitModel.RateLimiter.IsAllowed | apps/api/src/modules/auth/rate_limit.py:38-61 | One call prunes, decides and records for its key and leaves the other keys alone |
| BreakerModel.ObservedIsHistory | apps/api/src/modules/nodes/health.py:55-82 | The observed state is a function of the recorded calls: CLOSED if the trailing failures are below the threshold, else HALF_OPEN once the last failure is old enough, else OPEN, whoever looked in between |
| BreakerModel.CheckIsItsEvents | apps/api/src/modules/nodes/health.py:114-190 | A health check leaves the breaker as recording its probe's outcome, or nothing, would |
| BreakerModel.StatusByHistory | apps/api/src/modules/nodes/health.py:114-190 | When a node is probed and which status is reported, from the recorded calls alone |
| BreakerModel.CircuitByHistory | apps/api/src/modules/nodes/health.py:114-190 | The circuit a check reports is the one a reader would see then, from the recorded calls with the check's own result |
| BreakerModel.HalfOpenAdmitsAll | apps/api/src/modules/nodes/health.py:55-69 | After a history that shows HALF_OPEN every caller is let through, however many, until a result is recorded |
| BreakerModel.SingleProbeIff | apps/api/src/modules/nodes/health.py:55-82 | Of the callers before and after the failing result of a half-open period exactly those before it pass; so one probe goes out if and only if one caller asked before the result |
| BreakerModel.ProbesAreBounded | apps/api/src/modules/nodes/health.py:114-137 | Against a node that never answers, the probes of checks one after the other over a span T number at most threshold + floor(T / recovery_timeout) |
| BreakerModel.OverlappingProbesAreBounded | apps/api/src/modules/nodes/health.py:114-137 | With checks that overlap, at most c in flight, the probes let through number at most threshold + c - 1 + c * floor(T / recovery_timeout) |
| NodeHealthModel.CircuitBreaker.State | apps/api/src/modules/nodes/health.py:55-64 | Reading the state moves an OPEN breaker to HALF_OPEN when the time has come and changes nothing else |
| NodeHealthModel.CircuitBreaker.AllowRequest | apps/api/src/modules/nodes/health.py:66-69 | A request is allowed unless the observed state is OPEN |
| NodeHealthModel.CircuitBreaker.RecordSuccess | apps/api/src/modules/nodes/health.py:71-75 | A success resets the breaker |
| NodeHealthModel.CircuitBreaker.RecordFailure | apps/api/src/modules/nodes/health.py:77-82 | A failure counts, is dated, and opens the breaker at the threshold or when half open |
| NodeHealthModel.NodeHealthChecker.BreakerOf | apps/api/src/modules/nodes/health.py:109-112 | Every node has one breaker of its own, made on first use |
| NodeHealthModel.NodeHealthChecker.CheckNode | apps/api/src/modules/nodes/health.py:114-190 | A check reports and changes what is specified, for that node only |
| NodeHealthModel.NodeHealthChecker.Probe | apps/api/src/modules/nodes/health.py:114-190 | The three clock readings of one check give the specified breaker and report |
| NodeHealthModel.NodeHealthChecker.RecordCall | apps/api/src/modules/nodes/health.py:200-206 | Recording a call changes that node's breaker only |
| RealtimeTheorems.StreamIsNumbered | apps/api/src/realtime/connection_manager.py:93-96 | Over any interleaving of commands and pushes a connection's stream is numbered 1, 2, 3, ..., and its cache holds exactly the last N pushed ids |
| RealtimeTheorems.SentOncePerHorizon | apps/api/src/realtime/connection_manager.py:256-283 | An event id is sent again on a connection only after N other ids, however many handlers deliver it |
| RealtimeTheorems.PushedIff | apps/api/src/realtime/connection_manager.py:256-283 | After any interleaving an event adds exactly one push, with its id and the next number, if and only if it has no id or its id is not among the last N pushed; otherwise nothing is sent. Subscriptions make no difference and do not change |
| RealtimeTheorems.CommandAnswered | apps/api/src/realtime/connection_manager.py:155-242 | After any interleaving a command adds exactly one reply with its own id and the next number, subscribes if the conversation was found and permitted, unsubscribes on request, and changes no other subscription |
| RealtimeTheorems.ClientCacheIsLastAdded | apps/web/src/lib/realtime.ts:107-127 | For any stream the client's cache is exactly the last N of the ids it ever added, which do not repeat within N of each other |
| RealtimeTheorems.AcceptsIffNotRecent | apps/web/src/lib/realtime.ts:368-370 | For any stream the client accepts a message if and only if its id is not among the last N ids it added; so it agrees with an unbounded memory until N newer ids have come |
| RealtimeTheorems.NextIsNew | apps/api/src/realtime/connection_manager.py:256-283 | The next message sent carries an id that is not among a caught-up client's last N |
| RealtimeTheorems.NothingLostNothingFlagged | apps/web/src/lib/realtime.ts:343-395 | A client that receives everything accepts every message and flags no gap, however often event ids repeat |
| RealtimeTheorems.GapIffBehind | apps/web/src/lib/realtime.ts:368-391 | With ids that may repeat: a delivery is flagged if and only if it is accepted and every delivery accepted before it stands more than one number back |
| RealtimeTheorems.GapOnAnyStream | apps/web/src/lib/realtime.ts:368-391 | On any stream, numbered or not: a message is flagged if and only if it is accepted, is no greeting, and its number is more than one above the last number the client took over, which is positive |
| RealtimeTheorems.FlagIffPredecessorLost | apps/web/src/lib/realtime.ts:383-391 | On any numbered stream with some messages lost, a gap is flagged on a message if and only if the one just before it was lost |
| RealtimeTheorems.GapIffLoss | apps/web/src/lib/realtime.ts:368-391 | Server and client composed over a lossy in-order channel: with fresh ids and the greeting delivered, every received message is accepted and flagged if and only if its predecessor was lost |
| ReconnectModel.FailCountIsStreak | apps/web/src/lib/realtime.ts:443-500 | The failure count is the number of counted failures since the socket last opened, the user retried or everything was reset |
| ReconnectModel.ScheduledIffWithinBudget | apps/web/src/lib/realtime.ts:443-500 | An event schedules a reconnect if and only if it counts and makes a streak below ten; the tenth pauses the client |
| ReconnectModel.CloseCodes | apps/web/src/lib/realtime.ts:454-500 | Which close codes end in closed, forbidden, paused and reconnecting, exactly |
| ReconnectModel.OtherEvents | apps/web/src/lib/realtime.ts:225-318 | An opened socket forgets the failures; a try or retry connects unless a socket is there, and only the retry forgets the failures; hanging up closes; none of them schedules |
| ReconnectModel.StreakBudget | apps/web/src/lib/realtime.ts:155-161 | A streak of n failures schedules min(n, 9) reconnects whose total delay is within a fifth of the nominal total |
| ReconnectModel.DelaysDouble | apps/web/src/lib/realtime.ts:155-161 | The nominal delays are one second, doubling up to sixteen, then thirty |
| ReconnectModel.WholeBudget | apps/web/src/lib/realtime.ts:443-452 | Ten failures pause the client after 120.8 to 181.2 seconds of waiting |
| RealtimeObjects.EventDedupCache.Add | apps/api/src/realtime/connection_manager.py:65-75 | Adding moves a known id to the end, or appends and evicts the oldest |
| RealtimeObjects.ConnectionInfo.Send | apps/api/src/realtime/connection_manager.py:293-307 | A message takes the next number; a broken wire wastes it |
| RealtimeObjects.Deliver | apps/api/src/realtime/connection_manager.py:256-283 | Delivering an event to one connection is the specified handling of a push |
| RealtimeObjects.ConnectionManager.Connect | apps/api/src/realtime/connection_manager.py:106-134 | A new connection has sent exactly its greeting, numbered 1, or nothing with its first number spent; the others are untouched |
| RealtimeObjects.ConnectionManager.Disconnect | apps/api/src/realtime/connection_manager.py:136-145 | Only that connection goes |
| RealtimeObjects.ConnectionManager.Answer | apps/api/src/realtime/connection_manager.py:155-242 | Every command gets one numbered reply on its own connection and changes its subscriptions when found and permitted; a broken wire ends the connection |
| RealtimeObjects.ConnectionManager.Reply | apps/api/src/realtime/connection_manager.py:155-242 | The command handlers change the subscriptions and send the reply as specified |
| RealtimeObjects.ConnectionManager.SendEventToConnection | apps/api/src/realtime/connection_manager.py:256-283 | A push is deduplicated and numbered on its connection; a broken wire ends it; the others are untouched |
| RealtimeObjects.RealtimeClient.HandleMessage | apps/web/src/lib/realtime.ts:343-405 | What is no envelope is ignored; an event is dropped as a duplicate, or accepted with the missed pongs forgotten and a backfill exactly on a gap that names a conversation |
| RealtimeObjects.RealtimeClient.HandleOpen | apps/web/src/lib/realtime.ts:243-251 | An opened socket ends the failure streak, starts the heartbeat and asks for every subscription again, in order |
| RealtimeObjects.RealtimeClient.HandleConnectFailure | apps/web/src/lib/realtime.ts:443-452 | One failure counts and schedules or pauses |
| RealtimeObjects.RealtimeClient.HandleClose | apps/web/src/lib/realtime.ts:454-500 | The heartbeat stops and each close code leads to the specified state |
| RealtimeObjects.RealtimeClient.Retry | apps/web/src/lib/realtime.ts:309-314 | A retry forgets the failures and connects unless a socket is there |
| RealtimeObjects.RealtimeClient.Reset | apps/web/src/lib/realtime.ts:503-508 | Forgets ids, number, failures and subscriptions |
| MessagesModel.ReachableInv | apps/api/src/modules/conversations/repository.py:257-264 | In every reachable log each conversation's messages are numbered exactly 1..n in creation order, and no two share a non-empty idempotency key |
| MessagesModel.RunExtends | apps/api/src/modules/conversations/service.py:950-999 | Over a run messages are only appended, and one stored is never changed but for becoming deleted |
| MessagesModel.CreationIsIdempotent | apps/api/src/modules/conversations/service.py:864-906 | Once a message is stored under a key, every later creation under it that passes the checks stores nothing and returns that message, even after its deletion |
| MessagesModel.CreationStores | apps/api/src/modules/conversations/service.py:827-906 | A creation that fails a check stores nothing and says which; one under a known key returns that message; any other appends the sender's content under the next number and returns it |
| MessagesModel.SystemCreationStores | apps/api/src/modules/conversations/service.py:254-307 | A system message needs no permission, has neither sender nor key, and is appended under the next number |
| MessagesModel.DeletionMarks | apps/api/src/modules/conversations/service.py:950-999 | A deletion marks exactly the live message it names when the conversation is found and the actor may read and delete, and otherwise changes nothing |
| MessagesModel.NumbersAreNotReused | apps/api/src/modules/conversations/repository.py:257-264 | A later message of a conversation has a greater number, deletions or not, and none exceeds the count |
| MessagesModel.MessageLog.CreateMessage | apps/api/src/modules/conversations/service.py:827-906 | Creation is the specified step: checks in order, then the key lookup, then the next number |
| MessagesModel.MessageLog.CreateSystemMessage | apps/api/src/modules/conversations/service.py:254-307 | System messages take the next number too |
| MessagesModel.MessageLog.DeleteMessage | apps/api/src/modules/conversations/service.py:950-999 | Deletion marks one message of that conversation, or reports why not |
| OrgGroupModel.StepReplicatesIff | apps/api/src/modules/conversations/service.py:546-608 | On a group that mirrors the memberships, one operation keeps that if and only if it agrees with them; a membership change without its call breaks it |
| OrgGroupModel.OpenReplicates | apps/api/src/modules/conversations/service.py:469-543 | Whatever happened before, a group that comes into being mirrors the memberships of that moment |
| OrgGroupModel.GroupFollowsCalls | apps/api/src/modules/conversations/service.py:469-608 | On every run the group has one row per user, and its active participants are exactly those the last call, addition or removal about them, or the creation, put there |
| OrgGroupModel.ReplicatedIffCallsAgree | apps/api/src/modules/conversations/service.py:546-608 | At any point of any run the group mirrors the memberships if and only if, for every user, the last call about the user says what the memberships say |
| OrgGroupModel.RunReplicates | apps/api/src/modules/conversations/service.py:469-608 | Hence, whatever the order of joins, leaves, repeated calls and the moment of creation, a group whose membership changes are all followed by their calls mirrors the memberships |
| OrgGroupModel.MissedCallFails | apps/api/src/modules/conversations/service.py:546-608 | A run that misses one call and ends with a group that does not mirror the memberships |
| OrgGroupModel.RunKeepsRoles | apps/api/src/modules/conversations/service.py:546-585 | On every run each row carries the mapped role of its user's last call or addition, or of the membership at creation |
| OrgGroupModel.OpeningAnswers | apps/api/src/modules/conversations/service.py:469-543 | An existing organization's group is opened exactly by its members and by administrators; the first time it gets one active row per member with the membership's role, and afterwards it stays as it is |
| OrgGroupModel.CallsChange | apps/api/src/modules/conversations/service.py:546-608 | A call about a joining member gives the user an active row with the mapped role, one about a leaving member marks the participant as having left, and no other row changes |
| OrgGroupModel.AdditionAnswers | apps/api/src/modules/conversations/service.py:707-768 | Each refusal of an addition has its exact condition; otherwise the user participates with the role given and no other row changes |
| OrgGroupModel.RemovalAnswers | apps/api/src/modules/conversations/service.py:771-805 | Each refusal of a removal has its exact condition; otherwise the participant is marked removed with the role kept and no other row changes |
| OrgGroupModel.StepKeepsRows | apps/api/src/modules/conversations/service.py:546-608 | Every operation, agreeing or not, keeps one row per user |
| OrgGroupModel.OrgGroup.GetOrCreate | apps/api/src/modules/conversations/service.py:469-543 | Not found, refused, the existing group, or a new one with one active row per member |
| OrgGroupModel.OrgGroup.SyncMemberJoined | apps/api/src/modules/conversations/service.py:546-585 | Reactivates or adds the member's row with the mapped role |
| OrgGroupModel.OrgGroup.SyncMemberLeft | apps/api/src/modules/conversations/service.py:588-608 | Deactivates the member's active row |
| OrgGroupModel.OrgGroup.AddParticipant | apps/api/src/modules/conversations/service.py:707-768 | Each refusal in order, or the participant added or reactivated |
| OrgGroupModel.OrgGroup.RemoveParticipant | apps/api/src/modules/conversations/service.py:771-805 | Each refusal in order, or the active participant removed |
| ContactsModel.ReachableInv | apps/api/src/modules/contacts/service.py:113-183 | Over any run there is at most one row per unordered pair of users and none to oneself |
| ContactsModel.PendingHasRequest | apps/api/src/modules/contacts/service.py:113-149 | A pending row was made pending by its requester's request and has not changed since |
| ContactsModel.AcceptedHasConsent | apps/api/src/modules/contacts/service.py:152-162 | Behind every accepted row stand a request by its requester and, later, an acceptance by its addressee, with nothing in between or since |
| ContactsModel.RequestChanges | apps/api/src/modules/contacts/service.py:113-149 | A request to oneself or to nobody changes nothing; otherwise it revives a closed row between the two as the actor's pending request, shows an open one, or adds a pending row where there is none |
| ContactsModel.ResponseChanges | apps/api/src/modules/contacts/service.py:152-174 | An acceptance accepts and a rejection rejects the pending row it names, by its addressee only; any other row is shown or not found as it is |
| ContactsModel.RemovalChanges | apps/api/src/modules/contacts/service.py:177-183 | A removal marks exactly the accepted row between the two, who are then no contacts |
| ContactsModel.ListedIffAccepted | apps/api/src/modules/contacts/service.py:68-83 | Two users are contacts if and only if the row between them is accepted |
| ContactsModel.ListsAreSymmetric | apps/api/src/modules/contacts/service.py:68-83 | b is in a's list if and only if a is in b's, and nobody is in their own |
| ContactsModel.ListsHaveNoRepeats | apps/api/src/modules/contacts/service.py:68-83 | No list names a user twice |
| ContactsModel.ContactBook.CreateContactRequest | apps/api/src/modules/contacts/service.py:113-149 | A request is refused, answered with the existing row, revives a closed row, or adds one |
| ContactsModel.ContactBook.AcceptContactRequest | apps/api/src/modules/contacts/service.py:152-162 | Only the addressee of a pending row accepts it |
| ContactsModel.ContactBook.RejectContactRequest | apps/api/src/modules/contacts/service.py:165-174 | Only the addressee of a pending row rejects it |
| ContactsModel.ContactBook.RemoveContact | apps/api/src/modules/contacts/service.py:177-183 | Only an accepted contact is removed, and is marked |
| ModelRouteStore.LoadUndoesSaveIff | apps/api/src/modules/agents/service.py:219-246 | Merged over the defaults, a saved dictionary is loaded unchanged if and only if it has a mode, an active id and a list of profiles |
| ModelRouteStore.LoadedSurvives | apps/api/src/modules/agents/service.py:219-246 | Whatever can be loaded, an object with missing keys or one of the previous release included, survives being saved and loaded again |
| ModelRouteStore.StepRefines | apps/api/src/modules/agents/service.py:312-390 | The changes to the dictionary, with their crashes on values of other types, do to the typed route it stands for exactly what the typed request does, errors included, and the saved result is loaded as it |
| ModelRouteStore.ReachableInv | apps/api/src/modules/agents/service.py:219-246 | From an empty or previous-format column, over any run of updates and deletes, there are at most ten complete profiles with distinct ids; personal mode names one of them and platform mode names none |
| ModelRouteStore.UnreadableForever | apps/api/src/modules/agents/service.py:225-231 | A column that cannot be read stays as it is and every request on it fails, saving included; one that can be read always can |
| ModelRouteStore.OthersUntouched | apps/api/src/modules/agents/service.py:312-390 | A request leaves every profile it does not aim at as it was |
| ModelRouteStore.KeySurvives | apps/api/src/modules/agents/service.py:341-343 | Over any run a stored key survives every request that neither deletes its profile nor brings a new key |
| ModelRouteStore.UpdateShows | apps/api/src/modules/agents/service.py:329-370 | After a successful personal update the route names the named or a new profile with the requested service, the validated address and a key, and the owner's view shows it |
| ModelRouteStore.PersonalUpdateAnswers | apps/api/src/modules/agents/service.py:332-362 | Each error of a personal update has its exact condition over the request and the stored route, and stores nothing; otherwise the profile aimed at, or a new one, gets the stripped new key when that is not empty and its old key when it is, the name of the request, else its old name, else the provider's, and the model and address of the request, else the provider's |
| ModelRouteStore.NewKeyTakesEffect | apps/api/src/modules/agents/service.py:341-343 | After a successful personal update that brings a key the active profile has that key |
| ModelRouteStore.PlatformSwitchAnswers | apps/api/src/modules/agents/service.py:329-331 | A switch to the platform never fails and changes nothing but the mode and the active profile |
| ModelRouteStore.DeletionDoes | apps/api/src/modules/agents/service.py:373-390 | A deletion fails exactly for an unknown profile; otherwise it takes out that profile and no other, and switches to the platform exactly when it was the active one |
| ModelRouteStore.UpgradeKeeps | apps/api/src/modules/agents/service.py:233-246 | The previous release's personal route becomes one active profile with its key, model and address; anything else without a profile list becomes the platform's |
| ModelRouteStore.ViewFollowsRoute | apps/api/src/modules/agents/service.py:281-309 | On every reachable route the owner's view shows the stored mode, the active profile's service and every profile as stored |
| ModelRouteStore.AgentModelRoutes.GetRoute | apps/api/src/modules/agents/service.py:281-309 | The view of any stored value: every profile's fields and key flag, or a crash on items that lack them |
| ModelRouteStore.AgentModelRoutes.Update | apps/api/src/modules/agents/service.py:312-370 | An update is the specified step on the dictionary: the checks in order, then one item replaced or appended |
| ModelRouteStore.AgentModelRoutes.Delete | apps/api/src/modules/agents/service.py:373-390 | A deletion is the specified step on the dictionary; deleting the active profile switches to the platform |
| OrgTreeModel.BuildNode | apps/api/src/modules/directory/service.py:237-268 | The recursion counting depth upward builds the node with the remaining number of levels, and terminates for any parent links |
| OrgTreeModel.GetOrganizationTree | apps/api/src/modules/directory/service.py:200-285 | The listing is the specified one, from a root or from all parentless organizations by name |
| OrgTreeTheorems.TreeIsExact | apps/api/src/modules/directory/service.py:237-268 | An organization stands in the tree at a path if and only if the path is a chain of at most the given number of child links from the root with everything on it visible |
| OrgTreeTheorems.ForestIsExact | apps/api/src/modules/directory/service.py:270-285 | The same for a listing from several roots |
| OrgTreeTheorems.ListingAnswers | apps/api/src/modules/directory/service.py:220-285 | Too deep exactly beyond five levels; not found exactly for a root that is missing, deleted or not visible; otherwise one tree for the root, or one for each visible parentless organization |
| OrgTreeTheorems.RootsByName | apps/api/src/modules/directory/service.py:270-285 | The listing from the parentless organizations shows them by name |
| OrgTreeTheorems.RootsListOnce | apps/api/src/modules/directory/service.py:280-285 | Listing from the parentless organizations names none twice, cycles or not |
| OrgTreeTheorems.SubtreeListsOnceIff | apps/api/src/modules/directory/service.py:270-279 | Listing from a given root names none twice if and only if the root is not listed below itself |
| OrgTreeTheorems.ListedAgainIffCycle | apps/api/src/modules/directory/service.py:270-279 | That happens if and only if a visible cycle of child links returns to the root within the depth |
| RankingModel.RankingIsOrdered | apps/api/src/modules/model_gateway/rule_provider.py:236-241 | The ranking is a permutation of the scored candidates: passing ones first, then descending score, then id; equal entries keep their input order |
| RankingModel.OrderFreeIff | apps/api/src/modules/model_gateway/rule_provider.py:236-241 | Every input order gives the same list if and only if no two candidates that come to different entries tie in passing, score and id |
| RankingModel.RankingForgetsInputOrder | apps/api/src/modules/model_gateway/rule_provider.py:236-241 | In particular with distinct ids |
| RankingModel.EqualIdsKeepInputOrder | apps/api/src/modules/model_gateway/rule_provider.py:225-241 | Such a tie under every set of limits: two candidates that differ in name only |
| RankingModel.ScoresInRange | apps/api/src/modules/model_gateway/rule_provider.py:143-191 | Every score is in [0, 1], and a rejected candidate's is 0 |
| RankingModel.FullMarksIff | apps/api/src/modules/model_gateway/rule_provider.py:143-191 | The soft points are full if and only if the candidate is on the spot, in the wished environment, and meets every wish of a non-empty cuisine list without repetitions |
| RankingModel.ResultSays | apps/api/src/modules/model_gateway/rule_provider.py:193-234 | A candidate passes if and only if it is not dearer than the budget, has no excluded cuisine and is not beyond the distance limit; its score is its points over three to within half a ten-thousandth, and each reason code has its exact condition |
| RankingModel.OverBudgetIff | apps/api/src/modules/model_gateway/rule_provider.py:110-121 | Over budget means a dearer tier than the budget's, both known, in whatever case they are written |
| RankingModel.PointsAddUp | apps/api/src/modules/model_gateway/rule_provider.py:143-191 | The soft points are the share of the cuisine wishes met, each counted once, plus one for the wished environment in whatever case, plus a distance part that falls evenly from 1 on the spot to 0 at the limit, or at one kilometre for a shorter limit |
| RankingModel.CuisineFullIff | apps/api/src/modules/model_gateway/rule_provider.py:158-166 | The cuisine part is in [0, 1], full exactly when every wish is met and none is repeated, and zero exactly when none is met |
| RankingModel.Round4Nearest | apps/api/src/modules/model_gateway/rule_provider.py:190-191 | Rounding gives a nearest ten-thousandth, the even one of two equally near |
| RankingModel.CloserScoresNoLess | apps/api/src/modules/model_gateway/rule_provider.py:176-191 | Moving a candidate closer never lowers its score and never makes it fail |
| RankingModel.MovingCloserNeverLowers | apps/api/src/modules/model_gateway/rule_provider.py:193-241 | Moving one candidate closer never moves its entry down the list |
| RankingModel.RejectedShowsOnlyTheCount | apps/api/src/modules/model_gateway/rule_provider.py:202-234 | Under two sets of limits that both reject a candidate its public entry is the same if and only if it breaks equally many |
| RankingModel.RuleProvider.CheckHardConstraints | apps/api/src/modules/model_gateway/rule_provider.py:96-141 | The accumulated verdict is that no limit is broken, with one code per broken limit |
| RankingModel.RuleProvider.ScoreSoftPreferences | apps/api/src/modules/model_gateway/rule_provider.py:143-191 | The accumulated score and codes are the specified ones |
| RankingModel.RuleProvider.ScoreCandidates | apps/api/src/modules/model_gateway/rule_provider.py:193-241 | The loop and the final sort give the specified ranking |
| StableSort.SortIsUnique | apps/api/src/modules/model_gateway/rule_provider.py:236-241 | A list is the model's sort if and only if it is ordered and keeps every class of equal elements in input order, so any stable sort returns it |
| DebateModel.GroupDebateTurns | apps/web/src/lib/dormDinnerChat.ts:103-142 | The one-pass grouping with its round map: slots hold the last such turn, lists keep input order, and the rounds are exactly the named ones in strictly increasing order |
| DebateModel.GetRound | apps/web/src/lib/dormDinnerChat.ts:111-119 | Finds the round's group or appends a new one, counting a missing round and round 0 as 1 |
| DebateModel.PlaceInRound | apps/web/src/lib/dormDinnerChat.ts:129-139 | A host summary or debate turn goes to its own round's group, and the map and the list stay in step |
| DebateModel.GroupingIsUnique | apps/web/src/lib/dormDinnerChat.ts:103-142 | A list of turns has exactly one such grouping |
| DebateModel.EveryRoundIsShown | apps/web/src/lib/dormDinnerChat.ts:111-139 | Every debate turn is listed in the group of its own round and no other, a missing round and round 0 counting as 1; a host summary makes its round even without turns |
| DebateModel.FilterKeepsOrder | apps/web/src/lib/dormDinnerChat.ts:121-139 | Each list of the grouping holds every turn of its kind, once, in input order |
| DebateModel.ListedTurnsKept | apps/web/src/lib/dormDinnerChat.ts:121-139 | The proposals and the rounds together hold every proposal and debate turn exactly as often as the input |
| DebateModel.NothingLostIff | apps/web/src/lib/dormDinnerChat.ts:121-139 | The shown turns are among the input's, and are exactly the input's if and only if no opening, coordinator summary or host summary of one round is repeated in it |
| DebateModel.SecondOpeningReplaces | apps/web/src/lib/dormDinnerChat.ts:123-125 | An input that loses a turn: of two openings only the second is shown |
| FailureInjectionModel.EachBucketOnce | apps/api/src/modules/model_gateway/mock_provider.py:86-88 | Among any 10000 consecutive calls each bucket belongs to exactly one call |
| FailureInjectionModel.PeriodMeetsQuota | apps/api/src/modules/model_gateway/mock_provider.py:78-92 | Of any 10000 consecutive calls exactly min(10000, ceil(10000 * rate)) fail |
| FailureInjectionModel.FailuresTrackRate | apps/api/src/modules/model_gateway/mock_provider.py:78-92 | Over any number of calls the failures stay within one period's quota of the whole periods' |
| FailureInjectionModel.MockProvider.constructor | apps/api/src/modules/model_gateway/mock_provider.py:48-64 | The rate is clamped to [0, 1] and the counters start at 0 |
| FailureInjectionModel.MockProvider.MaybeInjectFailure | apps/api/src/modules/model_gateway/mock_provider.py:78-92 | Raises and counts exactly when the call's bucket is below a positive rate |
| FailureInjectionModel.MockProvider.Call | apps/api/src/modules/model_gateway/mock_provider.py:135-139 | The error counter is always the number of failing calls so far |

## Left out

- The scene engine, notifications, admin pages, permission tables and memories: not part of this model; what the core needs of them (visibility, membership, verdicts of permission and content checks) is an input.
- HTTP, WebSocket and Redis transport, the ORM, routes, migrations, React pages and scripts: I/O and glue.
- Cryptography, randomness and id generation: assumed, as listed above.
- Recorded times that nothing reads back (`used_at`, `revoked_at`, `left_at`), the session's `expires_at`, which refresh never checks, the CSRF token, and published domain events.
- Validation of a structured answer against its schema: whether an answer is valid is part of the provider's behaviour.
- Metrics, redaction and the AgentRun rows of the gateway, and embedding requests: they do not influence routing.
- The client's heartbeat timer, and sockets that close after a newer one was opened.
- RealtimeObjects.ConnectionManager.Disconnect: does not model the pubsub handlers; the handler passed to `unsubscribe` is a new closure each time, so no removal is claimed.
- RealtimeObjects.ConnectionManager.Answer: does not model the pubsub handlers either; repeated deliveries by several handlers are repeated push inputs.
- Private conversations, participants' permissions, and pagination of lists.
- Directory search and recommended organizations: filters and a first-seen merge that would add easy members.
- OrgTreeModel.GetOrganizationTree: names are ordered by code point and equal names keep the table's order; the database's collation and the type, visibility and status fields of a node are not modelled.
- DebateModel.GroupDebateTurns: the round map holds list positions instead of references to the groups, so aliasing of a group object between map and list is not captured; round numbers are whole.
- RankingModel.RuleProvider.ScoreCandidates: text is compared without case for ASCII letters only, the Chinese wording of the summary is a value, and NaN and infinite distances are not covered.
- ModelRouteStore.AgentModelRoutes.Update: URL validation and Python's text of a value that is no text are arbitrary functions, whitespace is the four ASCII blanks, and JSON numbers are whole.
- FailureInjectionModel.MockProvider.Call: the simulated delay and the answer of a call that does not fail.
- ContactsModel.ContactBook.CreateContactRequest: notifications and the readable projections of rows.
