# byrdocs back end, modelled in Dafny

This project models the core of the byrdocs Cloudflare Worker:

- **The login session broker.** The `OAuth` durable object keeps one record per login session, keyed by a random handle. It also keeps an in-memory registry of parked `listen` calls waiting for that session's token. The operations are `begin`, `get`, `login` (the GitHub code exchange), `loginBUPT`, `listen` with its ten-minute timeout, and the hourly `alarm` sweep. Both the current copy (`SessionBroker`) and the earlier one (`LegacyBroker`) are modelled. Each is a Dafny class with `map` fields. A ghost log of listener calls lets the model state that every parked call receives the token once, in order.
- **The download counter.** This is the `Counter` durable object (`VisitCounter`).
- **`chunk`** (`Chunking`).
- **The login routes and `afterLogin`** (`AuthRoutes`).
- **The `File` table.** Its rows move Pending → Uploaded/Error through the storage webhook and → Published through the publish route. Upload replaces the rows of a key, and the quota sums the uploader's unpublished sizes (`UploadRules`, `PublishRules`, `FileTable`).
- **The two entry points.** `SiteGate` models the campus/cookie gate, the login `to` round trip and the `/files/` forwarding with its counter. `LegacyGate` models the error-marker page, the `token=` cookie lookup and the `/files/` forwarding.

The outside world enters as parameters:

- the clock, as `now`;
- the random handle of `begin`, as a fresh key, with a precondition against the ghost set `minted`;
- GitHub's answers, as `GitHubReplies`;
- the JWT signer, as `sign`;
- the campus subnet check, as `inCampus`;
- token verification, as `verifies`;
- query-string serialisation, as `encode`;
- the outcome of a tag removal, as `untagOk`;
- the `HEAD` status and the STS answer of an upload, as `headStatus` and `credentialsOk`;
- the campus password check, as `CampusLogin` or a `Result`.

The `Promise.any` race of `listen` is split into two parts. `Listen` registers a numbered waiter. `Timeout` and `WithdrawOnTimeout` are the timer firing.

The model follows the code where its behaviour is narrower than its intent:

- `/oauth` refuses a missing or empty service, or one that `OAUTH_SERVICES[service]` does not find, all with the same result.
- The webhook's "no row at all" case is the dereference of a null row, which throws and ends the request (`Crash`). Rows already updated stay updated.

## Model

| member | source | states |
|---|---|---|
| Text.Describe | src/api/auth.ts:73 | `message \|\| toString() \|\| "未知错误"`: never empty, the message first |
| Text.SplitJoinIsReplaceAll | src/index.ts:22-26 | splitting on a marker and joining with a text replaces every marker occurrence |
| Text.ReplaceAllAbsent | src/index.ts:22-26 | with no marker in the text, replacing leaves it unchanged |
| Text.DecimalRoundTrip | src/objects/oauth.ts:106 | the decimal text of an id reads back as that id |
| Text.DecimalInjective | src/objects/oauth.ts:106 | different ids have different decimal texts |
| Text.IntText | src/api/s3.ts:148 | `status.toString()`: the decimal text of a non-negative status, a leading `-` otherwise |
| Text.Get | src/index.tsx:52 | `URLSearchParams.get`: absent exactly when no pair has the name; otherwise the value of the first pair with that name |
| Text.SplitOnCharFirst | src/index.ts:56 | the first piece of a split on one character is the text before it; the rest is the split of what follows |
| Waiters.Registered | src/objects/oauth.ts:112 | `listeners.get(key) \|\| []`: the key's list, or empty when absent |
| Waiters.Register | src/objects/oauth.ts:154-155 | appends one waiter to the key's list; other keys unchanged |
| Waiters.Notify | src/objects/oauth.ts:114 | one call per listener, in list order, all with the token |
| Waiters.RegisterOk | src/objects/oauth.ts:154-155 | registering a fresh waiter keeps every waiter in one place and not yet called |
| Waiters.DrainOk | src/objects/oauth.ts:112-114 | removing a key's list and calling it keeps the registry consistent: no waiter called twice |
| Waiters.DropOk | src/objects/oauth.ts:158-159 | deleting a key's list without calling it keeps the registry consistent |
| Waiters.TimeoutAsWritten | src/objects/oauth.ts:158-159 | the timeout removes the key's whole list; the other keys, and no new one, stay with their lists |
| Waiters.TimeoutDropsLaterWaiter | src/objects/oauth.ts:152-163 | with two calls parked on one key, the first timeout unregisters both, so a later login calls nobody |
| Waiters.Withdraw | src/objects/oauth.ts:157-162 | the intended timeout: only the expiring waiter leaves the key's list |
| Waiters.WithdrawKeepsOthers | src/objects/oauth.ts:157-162 | after withdrawing one waiter, every other waiter of the key is still registered |
| Waiters.WithdrawOk | src/objects/oauth.ts:157-162 | withdrawing one waiter keeps the registry consistent |
| SessionBroker.GitHubIdentity | src/objects/oauth.ts:68-104 | the exchange yields the user id exactly when the token is ok with an access token, the user is ok and, for `byrdocs` only, the org answers 204; otherwise the thrown message of the first failing step |
| SessionBroker.OrgCheckOnlyForMainSite | src/objects/oauth.ts:93-104 | for any service but `byrdocs` the org answer does not matter |
| SessionBroker.GitHubSubject | src/objects/oauth.ts:106 | the claim is `GitHub-` followed by the decimal id |
| SessionBroker.BuptSubject | src/objects/oauth.ts:128 | the claim is `BUPT-` followed by the username |
| SessionBroker.SubjectsDistinct | src/objects/oauth.ts:105-108 | claims of different users, or of a GitHub and a campus user, never coincide |
| SessionBroker.IssuedAt | src/objects/oauth.ts:107 | `floor(now / 1000)`: the whole second containing `now` |
| SessionBroker.Resolved | src/objects/oauth.ts:109-111 | the record becomes `login = true` with the new token; service, data and creation time are kept |
| SessionBroker.Sweep | src/objects/oauth.ts:24-30 | keeps exactly the records at most an hour old, unchanged |
| SessionBroker.SweepLater | src/objects/oauth.ts:24-32 | sweeping at `t1` then at a later `t2` equals sweeping at `t2` |
| SessionBroker.OAuth.constructor | src/objects/oauth.ts:17-22 | holds the stored records, no listeners, and the alarm one hour ahead |
| SessionBroker.OAuth.Alarm | src/objects/oauth.ts:24-32 | deletes exactly the records with `now - createdAt > 3600000`, resolved or not, and re-arms one hour ahead |
| SessionBroker.OAuth.Begin | src/objects/oauth.ts:34-43 | adds one unresolved record under the fresh handle with the given service, data and `createdAt = now`, and returns that handle; nothing else changes |
| SessionBroker.OAuth.Get | src/objects/oauth.ts:45-51 | the record of a stored handle; otherwise the session-expired error |
| SessionBroker.OAuth.Settle | src/objects/oauth.ts:105-119 | signs the claim, resolves the record whatever it held, removes the key's listener list and calls each listener once in order; returns token, service and data |
| SessionBroker.OAuth.Login | src/objects/oauth.ts:53-120 | a missing record or any provider failure throws with nothing changed; success signs `GitHub-<id>`, resolves the record (overwriting an earlier token) and drains the key's listeners |
| SessionBroker.OAuth.LoginBupt | src/objects/oauth.ts:122-142 | a missing record throws with nothing changed; otherwise it signs `BUPT-<username>`, resolves and drains as `Login` does |
| SessionBroker.OAuth.Listen | src/objects/oauth.ts:144-156 | a missing record throws with nothing changed; a resolved one answers its token without registering; otherwise one waiter is appended behind the earlier ones |
| SessionBroker.OAuth.Timeout | src/objects/oauth.ts:157-162 | as written, the timer deletes the key's whole listener list; records and other keys are untouched |
| SessionBroker.OAuth.WithdrawOnTimeout | src/objects/oauth.ts:157-162 | the intended timer: only the expiring waiter is unregistered |
| SessionBroker.ListenAfterBeginParks | src/objects/oauth.ts:34-43 | a `listen` right after `begin` parks instead of answering |
| SessionBroker.ListenAfterLoginAnswers | src/objects/oauth.ts:122-151 | after `loginBUPT`, `listen` answers at once with the token the login produced |
| SessionBroker.ParkedCallsAllReceiveToken | src/objects/oauth.ts:112-114 | with any calls already parked, two more parked before a login: every one receives the token exactly once, in parking order, and the key's list is gone |
| SessionBroker.FailedLoginKeepsPending | src/objects/oauth.ts:68-70 | after a failed code exchange the session is still unresolved: `listen` parks |
| SessionBroker.StaleSessionExpires | src/objects/oauth.ts:24-32 | after the sweep, `listen` on a record older than an hour reports the session expired |
| LegacyBroker.GitHubIdentity | src/oauth.ts:57-81 | the id exactly when the token is ok with an access token and the user is ok; otherwise the first failure's message; no org check |
| LegacyBroker.Sweep | src/oauth.ts:23-29 | keeps exactly the records at most an hour old |
| LegacyBroker.OAuth.constructor | src/oauth.ts:16-21 | holds the stored records, no listeners, and the alarm one hour ahead |
| LegacyBroker.OAuth.Alarm | src/oauth.ts:23-31 | deletes exactly the records older than one hour (strict `>`) and re-arms |
| LegacyBroker.OAuth.Begin | src/oauth.ts:33-40 | stores `{login: false, createdAt: now}` under the fresh handle and returns it |
| LegacyBroker.OAuth.Login | src/oauth.ts:42-90 | a missing record or a provider failure throws with nothing changed; success signs the numeric id, resolves the record, drains the listeners once each in order, and returns the token |
| LegacyBroker.OAuth.Listen | src/oauth.ts:92-104 | expired, the stored token, or one more waiter appended |
| LegacyBroker.OAuth.Timeout | src/oauth.ts:105-110 | the timer deletes the key's whole listener list |
| VisitCounter.Insert | src/objects/counter.ts:22 | inserting into a descending ranking keeps it descending and adds exactly that entry |
| VisitCounter.SortByCount | src/objects/counter.ts:22 | `sort((a, b) => b.value - a.value)`: a permutation, ordered by count, largest first |
| VisitCounter.Counter.constructor | src/objects/counter.ts:5-8 | the counter over the stored counts |
| VisitCounter.Counter.Add | src/objects/counter.ts:10-13 | an absent key becomes 1, a present one goes up by 1, no other key changes |
| VisitCounter.Counter.List | src/objects/counter.ts:15-23 | one entry per stored key with its count, nothing else, ordered largest first; storage unchanged |
| Chunking.Chunk | src/utils.ts:4-10 | the slices concatenate to the input; slice k is `a[k*size .. min((k+1)*size, n)]`; there are ⌈n/size⌉ slices, all but the last of length `size`, each of 1..size elements |
| Chunking.CountChunks | src/utils.ts:6 | the loop runs ⌈n/size⌉ times |
| AuthRoutes.Payload | src/api/auth.ts:110-113 | the query holds the token, and the data exactly when it is a non-empty string |
| AuthRoutes.Service | src/api/auth.ts:9-13 | `OAUTH_SERVICES[name]` finds the registered entry, or for a name inherited from `Object.prototype` a member without `redirect_uri`; nothing else |
| AuthRoutes.CallbackPage | src/api/auth.ts:115 | the entry's `redirect_uri`, or `undefined` for an inherited member |
| AuthRoutes.AfterLogin | src/api/auth.ts:103-118 | `byrdocs` and `byrdocs-cli` get token and data, with the cookie only for `byrdocs`; any other name the lookup finds is redirected with the payload, to its callback page or, for an inherited name, to `undefined`; anything else is "service not found" |
| AuthRoutes.ForwardRoundTrip | src/api/auth.ts:110-116 | the third-party service reads its token and data back from the redirect's query |
| AuthRoutes.CookieOnlyForSite | src/api/auth.ts:104 | the login cookie is set exactly for `byrdocs` |
| AuthRoutes.OAuthGuard | src/api/auth.ts:50-52 | a service passes exactly when it is registered in `OAUTH_SERVICES` or inherited from `Object.prototype` |
| AuthRoutes.InheritedServiceForwardedToUndefined | src/api/auth.ts:108-116 | `service=toString` passes the guard, and its login sends the token to `undefined?token=…` |
| AuthRoutes.OwnServiceGuard | src/api/auth.ts:51 | the intended guard: a service passes exactly when `OAUTH_SERVICES` itself registers it |
| AuthRoutes.OwnGuardForwardsToCallback | src/api/auth.ts:108-116 | behind the intended guard, a third-party login always goes back to the service's registered callback page |
| AuthRoutes.BegunServicesAreRouted | src/api/auth.ts:39-62 | every service a route begins a session for is answered by `afterLogin`, never "service not found": the own services get the token, a registered service its callback page, an inherited name `undefined` |
| AuthRoutes.TokenUrlNamesSession | src/api/auth.ts:43 | different handles give different long-poll URLs |
| AuthRoutes.CliPageNamesSession | src/api/auth.ts:44 | different handles give different command-line login pages |
| AuthRoutes.OAuthRoute | src/api/auth.ts:49-56 | a refused service begins no session; otherwise, inherited names included, one session of that service is begun under a fresh handle and the browser is sent to its login page, and nothing else of the broker changes |
| AuthRoutes.CliLoginRoute | src/api/auth.ts:39-47 | begins a `byrdocs-cli` session under a fresh handle and answers with the long-poll and login URLs of that handle; nothing else of the broker changes |
| AuthRoutes.SiteLoginRoute | src/api/auth.ts:58-62 | begins a `byrdocs` session under a fresh handle, carrying `to` as its data, and redirects to its login page; nothing else of the broker changes |
| AuthRoutes.CallbackService | src/api/auth.ts:33 | the stored service when it is not empty; `byrdocs` when it is empty |
| AuthRoutes.AuthorizeLink | src/api/auth.ts:31-36 | GitHub's authorize URL carries the client id, the callback of the session's service and the handle as `state` |
| AuthRoutes.GitHubRoute | src/api/auth.ts:27-37 | a missing session throws the expired error; otherwise a redirect to the authorize link |
| AuthRoutes.TokenReply | src/api/auth.ts:63-75 | a non-empty token is success; no token is "会话过期，请重新登录"; a throw is its message |
| AuthRoutes.TokenRoute | src/api/auth.ts:63-75 | a missing session answers the broker's expired message and a resolved one its token, the broker unchanged; an unresolved one parks, registering one more waiter and nothing else |
| UploadRules.HexValue | src/api/s3.ts:138 | reads back the nibble of a lower-case hex digit |
| UploadRules.KeyForValid | src/api/s3.ts:138-140 | every key made of 32 hex digits and `.zip` or `.pdf` is accepted |
| UploadRules.ValidKeyIsKeyFor | src/api/s3.ts:138-140 | every accepted key is such a key: the pattern accepts nothing else |
| UploadRules.PendingRow | src/api/s3.ts:52-57 | the pending row of the key, present exactly when one exists |
| UploadRules.Decide | src/api/s3.ts:51-102 | skip another bucket; discard when rows exist but none pending; throw with no row; else reject an object over 2 GiB, then one whose key does not start with its eTag; else accept |
| UploadRules.SizeTestedFirst | src/api/s3.ts:85-92 | an oversized object is refused for its size whatever its eTag |
| UploadRules.SetError | src/api/s3.ts:70-79 | the row becomes Error with the reason; its other fields and every other row are kept |
| UploadRules.SetUploaded | src/api/s3.ts:93-102 | the row becomes Uploaded with the object's size and the upload time; its name, uploader, error and creation time and every other row are kept |
| UploadRules.StepChangesOnlyPending | src/api/s3.ts:50-103 | one record changes at most one Pending row, to Uploaded or Error |
| UploadRules.Replay | src/api/s3.ts:50-103 | the records in order keep the table's ids and names |
| UploadRules.ReplayChangesOnlyPending | src/api/s3.ts:50-103 | across a whole webhook call a row changes only from Pending to Uploaded or Error |
| UploadRules.ReplayNext | src/api/s3.ts:50 | one more record is one more step, unless the run already threw |
| UploadRules.CrashStops | src/api/s3.ts:63-95 | after a record throws, later records are not looked at |
| UploadRules.SumRemove | src/api/s3.ts:160-162 | the quota sum does not depend on the order of the rows |
| UploadRules.SumWithoutUncounted | src/api/s3.ts:160-162 | rows that count nothing for the uploader do not change the sum |
| UploadRules.SumSameCounts | src/api/s3.ts:160-162 | the same rows with the same counts give the same sum |
| UploadRules.Replace | src/api/s3.ts:212-224 | deletes the rows of the key and creates one Pending row for the uploader under the next id; other rows unchanged |
| UploadRules.ReplaceLeavesOnePending | src/api/s3.ts:212-224 | afterwards the key names exactly one row, the new Pending one, and names stay distinct |
| UploadRules.ReplaceKeepsQuotaOfOthers | src/api/s3.ts:153-166 | a replacement leaves any uploader's total unchanged when the deleted rows counted nothing for them |
| PublishRules.NotPublished | src/api/file.ts:19-37 | exactly the rows created at or after `since` (default the epoch) that are not Published, as stored |
| PublishRules.Blocking | src/api/file.ts:44-57 | exactly the requested rows whose status is neither Uploaded nor Published, with their status |
| PublishRules.PublishAll | src/api/file.ts:67-76 | requested rows that exist become Published; others unchanged; unknown ids ignored |
| PublishRules.PublishIdempotent | src/api/file.ts:67-76 | publishing twice is publishing once |
| PublishRules.RepublishAllowed | src/api/file.ts:44-65 | after publishing, the same request passes the status check |
| PublishRules.PublishedLeaveNotPublished | src/api/file.ts:19-37 | published rows leave the unpublished list, whatever `since` |
| PublishRules.PublishKeepsNames | src/api/file.ts:67-76 | the update keeps file names distinct |
| PublishRules.Succeeded | src/api/file.ts:118 | success exactly when no response is rejected |
| FileTable.Files.constructor | src/api/s3.ts:49 | the table over the stored rows |
| FileTable.Files.Webhook | src/api/s3.ts:27-105 | 401 without `Bearer TOKEN`; any event but a PUT changes nothing; otherwise the table and deleted objects are those of replaying the records, stopping at a throw |
| FileTable.Files.HandleRecord | src/api/s3.ts:51-102 | one record changes the table and the deleted objects as one step of the replay |
| FileTable.Files.UsedBy | src/api/s3.ts:153-162 | the total of the uploader's Uploaded rows with a size |
| FileTable.Files.Upload | src/api/s3.ts:130-227 | a bad key, an existing object, any `HEAD` status but 404, a total over 5 GiB or no credentials each fail with their message and change nothing; otherwise the key's rows are replaced by one Pending row |
| FileTable.Files.NotPublishedRoute | src/api/file.ts:13-37 | 401 without the token; otherwise exactly the unpublished rows since `since`, each as stored |
| FileTable.Files.Requested | src/api/file.ts:78-88 | each requested row that exists once, with its name |
| FileTable.Files.Publish | src/api/file.ts:13-127 | 401 without the token; a blocking row fails with the wrong-status message and those rows, and nothing changes; otherwise all requested rows become Published, one response per existing requested row with no id twice, success exactly when every untag succeeded, and the partial-failure message exactly when one did not |
| FileTable.UntagBatch | src/api/file.ts:99-115 | one response per file of a batch, in order, fulfilled exactly when its untag succeeded |
| FileTable.UntagAll | src/api/file.ts:96-116 | one response per updated row in order, fulfilled exactly when its untag succeeded |
| SiteGate.ClientIp | src/index.tsx:32 | the `CF-Connecting-IP` header when present and not empty; the unknown marker when it is missing or empty |
| SiteGate.LoginForm | src/index.tsx:31-35 | a known campus address goes home; any other gets the form |
| SiteGate.LoginSubmit | src/index.tsx:36-59 | campus goes home; non-text fields get "输入不合法" before any check; success sets the cookie and goes to `to` or `/`; a refusal or a throw shows its message |
| SiteGate.Gate | src/index.tsx:60-75 | passes exactly a campus address or the signed cookie `1`; otherwise the bare root goes to `/login`, anything else to `/login` with `to` = path and query |
| SiteGate.GateThenLoginReturns | src/index.tsx:44-73 | turned away and then logged in, a visitor is sent back to the page they asked for |
| SiteGate.FilePath | src/index.tsx:87 | the path after `/files/` |
| SiteGate.UpstreamUrl | src/index.tsx:93 | the server, a `/` unless it ends with one, then the path |
| SiteGate.ServerBase | src/index.tsx:93 | a server ending in `/` loses exactly that one slash; any other server is kept as given |
| SiteGate.UpstreamOneSlash | src/index.tsx:93 | exactly one `/` between server and path, with or without a trailing slash in the setting |
| SiteGate.FilesRoundTrip | src/index.tsx:86-95 | a download of `/files/p` reaches the server at `p` |
| SiteGate.FilesRoute | src/index.tsx:86-95 | counts one download of the path unless it starts with `covers/`, and answers with the upstream URL |
| LegacyGate.LoginErrorFillsMarkers | src/index.ts:22-26 | the error replaces every marker; with no marker the page is unchanged |
| LegacyGate.LoginSubmit | src/index.ts:34-50 | non-text fields get "数据格式错误"; a failed check shows its message; otherwise the `token=<jwt>;` cookie is set |
| LegacyGate.TokenIn | src/index.ts:56 | absent exactly when no segment starts with `token=`; otherwise the value of the first segment that does |
| LegacyGate.FindStarting | src/index.ts:56 | `find`: the first segment with the prefix, absent exactly when none has it |
| LegacyGate.CookieValue | src/index.ts:56 | `split("=")[1]` of a `token=` segment is the text up to the next `=` |
| LegacyGate.OnlyTokenCookie | src/index.ts:56 | a header holding only the token cookie gives the token back |
| LegacyGate.TokenBehindOtherCookieMissed | src/index.ts:56 | as written, a token cookie after another cookie is not found |
| LegacyGate.TrimStart | src/index.ts:56 | drops leading spaces; a segment without one is unchanged |
| LegacyGate.TrimStartDropsLeadingSpaces | src/index.ts:56 | the trimmed segment is a suffix of the segment, and everything it drops is a space |
| LegacyGate.TrimmedFindsTokenBehindOther | src/index.ts:56 | with the segments trimmed, the token behind another cookie is found |
| LegacyGate.TrimmedAgrees | src/index.ts:56 | on headers without leading spaces, the trimmed lookup agrees with the written one |
| LegacyGate.Gate | src/index.ts:51-67 | passes exactly a campus address or a non-empty token, read without trimming, that verifies; otherwise to `/login` |
| LegacyGate.GateMissesTokenBehindOther | src/index.ts:51-67 | off campus, a valid token behind another cookie is sent to `/login` |
| LegacyGate.GateTrimmed | src/index.ts:51-67 | the intended gate: as `Gate`, with the token read from trimmed segments |
| LegacyGate.GateTrimmedAgrees | src/index.ts:51-67 | on headers without leading spaces, the intended gate answers as the written one |
| LegacyGate.SignedInBehindOtherCookiePasses | src/index.ts:51-67 | with the intended gate, a verified token behind another cookie is let through |
| LegacyGate.FilesUrl | src/index.ts:69-73 | the path after `/files/`, joined to the server with exactly one `/` |

## Left out

- Network calls are outcomes or parameters: the GitHub token, user and org requests; the campus portal login (`byrdocs_login`, src/login.ts); the S3 `HEAD`, `DELETE` and tag removals; the STS call and its XML answer. The upload answer's credentials are not modelled.
- JWT signing and verification, signed cookies, `uuidv4`, the subnet checker and `URLSearchParams` encoding are parameters (`sign`, `verifies`, a fresh handle, `inCampus`, `encode`). A query is kept as its list of pairs, so percent-encoding is not modelled.
- The inherited names of `OAUTH_SERVICES` are the twelve standard members of `Object.prototype`. Members added to it by a runtime or a library are not modelled.
- The regular expression of the key check is written out as `ValidKey`, not run by a regex engine.
- Prisma and D1 are an in-memory `map<int, Row>`. Row ids come from a counter `nextId`. The database errors caught around the upload's delete/create are not modelled.
- Time is one `now` parameter per operation. The webhook's per-record `new Date()` is the same `now` for all records of one call.
- `Promise.any`, `setTimeout`, `setAlarm` and `waitUntil` are explicit events or left out. The `Promise.all` batches of the publish route are modelled as sequential, in list order. Each tag removal is independent, so the responses are the same.
- VisitCounter.SortByCount: entries with equal counts come out in reverse input order, where the source's stable `sort` keeps them in input order. Only descending order and permutation are stated, and the order in which `List` collects the keys is not modelled.
- `afterLogin`'s `JSON.stringify` branch for non-string data cannot be reached: the broker stores `data` only as the string `to` of GET `/login`.
- The upload route's `id` comes from the JWT middleware of src/api/s3.ts (lines 106-123) and is a parameter (`uploader`). The `/files/:path` route of src/api/s3.ts is not part of this model.
- The "wrong password" branch of src/index.tsx (a `false` login result) is modelled as the outcome `Refused`. The login helper of src/login.ts throws instead of answering false, so that branch is not reachable with it.
- The callback and campus-login routes of src/api/auth.ts (lines 76-101) only combine `login`/`loginBUPT` with `afterLogin` under a try/catch that turns a throw into its message. They are not modelled as separate members.
- Pages and markup (src/pages/login.tsx, src/loginPage.tsx, src/notification.tsx) and the routing glue (src/api.ts, src/api/index.ts, src/api/oauth.ts, src/types.ts, src/counter.ts, src/s3.ts) are not part of this model.
- Chunking.Chunk: requires `size > 0`. With `size <= 0` and a non-empty list, the source loops forever.
- SessionBroker.OAuth.Begin and LegacyBroker.OAuth.Begin: require a handle never handed out before. This stands in for `uuidv4` never repeating.
- SessionBroker.OAuth.Listen and LegacyBroker.OAuth.Listen: return `Parked` for an unresolved session. The later value of the parked promise (the token from a login, or `undefined` from the timer) is stated through the delivery log and `Timeout`, not as a return value.
- SessionBroker.OAuth.Login and LegacyBroker.OAuth.Login: each is one atomic step. In the source the record is read first (src/objects/oauth.ts:54, src/oauth.ts:43), the GitHub requests are awaited, and only then is the stale copy written back (src/objects/oauth.ts:111, src/oauth.ts:85). An alarm sweep, a `listen` or another login can run during those awaits. A session deleted by the sweep in between is written back and revived. The model does not capture these interleavings.
- FileTable.Files and UploadRules.PendingRow: the table invariant assumes at most one row per file name (`DistinctNames`). The source has no schema constraint that guarantees this. Two concurrent uploads of one key can run delete, delete, create, create (src/api/s3.ts:212-224) and leave two Pending rows, and the webhook's `findFirst` (src/api/s3.ts:52-57) then picks one of them. Each route is modelled as one atomic step, so this interleaving and the tables it leaves are not modelled.
- AuthRoutes.TokenRoute: answers `None` for a parked call. What it answers when the wait ends is `TokenReply` of that end.

## Findings

| source | as written | input that shows it | evidently intended | confidence | as-written member | corrected member |
|---|---|---|---|---|---|---|
| src/objects/oauth.ts:157-162 (also src/oauth.ts:105-110) | the ten-minute timer of one parked `listen` deletes the whole listener list of its handle | two `listen` calls on one unresolved handle; the first call's timer fires; then `login` succeeds before the second call's timer | only the expiring call is unregistered, and the second call still receives the token | not executed | Waiters.TimeoutDropsLaterWaiter | SessionBroker.OAuth.WithdrawOnTimeout |
| src/index.ts:56 | the `token=` segment is looked for without trimming the space that follows each `;` | `Cookie: theme=dark; token=<jwt>` with a valid token: the segment is ` token=<jwt>`, not found, and the visitor is sent to `/login` | each segment is trimmed before its name is compared | not executed | LegacyGate.GateMissesTokenBehindOther | LegacyGate.SignedInBehindOtherCookiePasses |
| src/api/auth.ts:51 (also src/api/auth.ts:108-109) | `OAUTH_SERVICES[service]` is looked up on a plain object literal, so names inherited from `Object.prototype` are found | `GET /oauth?service=toString`: a session is begun; after login `afterLogin` answers `{redirect: "undefined?token=<jwt>", success: true}` | only services registered in `OAUTH_SERVICES` itself pass, and "service not found" otherwise | not executed | AuthRoutes.InheritedServiceForwardedToUndefined | AuthRoutes.OwnGuardForwardsToCallback |
