# GravyFlow, verified

GravyFlow is a small platform-as-a-service backend: it clones a repository, builds an image, runs it behind Caddy and
keeps accounts, quotas and sessions.  This project models the parts of it that are state machines, protocols and text
transformers, and proves what they are for.

| file | what it is about |
|---|---|
| `LogSplitter.dfy`, `JobLog.dfy`, `LogPublishing.dfy`, `LogStream.dfy` | the build log: bytes cut into lines, lines numbered, capped and published, and the live stream a browser receives |
| `Reconciler.dfy` | finding stuck deployments by a non-atomic scan of the task queue |
| `CaddyRoutes.dfy`, `RouteManagers.dfy` | compiling the routing table for Caddy, and the cheap drift test |
| `Quotas.dfy`, `QuotaTransactions.dfy`, `QuotaHistory.dfy`, `QuotaOverlap.dfy` | reserving and releasing resources, concurrently and in bulk, and the log of quota changes, also when they overlap |
| `DotEnv.dfy`, `DotEnvReading.dfy`, `DotEnvRoundTrip.dfy`, `DotEnvExact.dfy` | reading and writing `.env` files |
| `EnvImport.dfy` | the batched import of environment variables against the one-by-one import |
| `Sessions.dfy` | tokens, second factors and recovery codes, with every handler split at its database accesses |
| `RestartLimiter.dfy`, `CircuitBreaker.dfy`, `RiskSweeper.dfy` | the control loops of the health checker and the abuse sweeper |
| `NameRules.dfy`, `TreeSummary.dfy`, `GoStrings.dfy` | name sanitizers, the repository size summary, and the Go string functions they use |
| `Shared.dfy` | optional values, listings without repetition and the rule for variable names |

## How to read it

Code that updates state is a class or a method with a loop, specified by a function of the old state; lemmas then say
what that function is good for.  Protocols (`LogStream`, `Reconciler`, `QuotaTransactions`, `Sessions`) are step
relations in which any enabled step may happen next, and their theorems are about every state of every run.

Bytes, not characters, are what the log writer cuts; a line is a sequence of bytes.  CPU amounts are reals.  Go maps are
visited in an arbitrary order, and theorems about their output hold for every order.

What the world is assumed to do:

* **Log protocol.**  One writer run per job, no failing Redis command, no message dropped for a slow subscriber.  The
  list may expire and the connection may break at any moment.
* **Queue scan.**  Reading one list is atomic; the four readings are not atomic together.
* **Caddy.**  Hosts are compared exactly and the path matcher `/api/*` is a prefix test; the HTTP and HTTPS ports differ.
* **Database.**  Row locks exclude each other, a statement is atomic, and a rolled-back transaction leaves nothing.
  The clock does not run backwards between two audit rows of one deployment.
* **Cryptography.**  Tokens are unforgeable and distinct, newly generated recovery codes have hashes that were never
  stored before.  No two accounts start with a recovery-code hash in common.

## Where the code does not do what one would expect

These are results of the project; each is proved with its exact condition, or with a bound that is reached.

* **How a build's output is cut into writes can show in its log.**  For text without escape sequences the published log
  is independent of the cuts exactly when no line has anything but blanks after its first 2001 bytes
  (`CutsDoNotShowIff`).  The lines handed over for publishing, which may be blank, are independent of them exactly when
  every terminated line has at most 2000 bytes and the unterminated last one at most 2001 (`ChunkIndependence`).
* **The scan order protects tasks only from running workers.**  A task that returns to pending can be missed by all four
  readings: a scheduled or retried one that the queue's forwarder puts back, or an active one that a worker requeues when
  it shuts down (`ScanIsSafeIff`, `WorkersAreSafeForwarderIsNot`).
* **Two containers of one name make the drift test push forever** (`QuietAfterReplaceIff`).  If they also agree about the
  target, some table with stale routes passes the test (`QuietMeansInStepIff`).
* **The drift test never looks at hosts**, so it does not notice that a domain was verified since the last rebuild
  (`QuietMeansSameHostsIff`).
* **A bulk reservation of nothing is refused when the user is already over quota**, and a negative entry can hide in an
  acceptable sum (`BulkReserveIff`, `BulkReleaseIff`).
* **Two overlapping quota updates can leave a history that does not lead to the stored limits.**  An update that sets a
  limit to the value it read, after another one changed it, writes no row; and one that began before another and commits
  after it is dated before it, because rows carry the time at which their transaction began (`ReplayIsRightIff`).
* **A restart whose audit row is lost is not counted**, so it comes on top of the limit (`AtMostLimitAttempts`,
  `BoundsAreReached`).
* **Without overwriting, the batched import keeps the last value of a new key, the one-by-one import the first**
  (`BatchAgreesIff`).
* **A quoted `.env` value may span lines, but trailing whitespace of its first line is lost** (`LiteralRoundTripIff`),
  although single quotes are documented as literal.
* **A comment behind an empty unquoted value becomes the value**, because the whitespace before it is already gone when it
  is looked for (`CommentedReadsBackIff`).
* **The `.env` export does not quote**, so it reads back as what was exported only if all of its values are plain
  (`ExportRoundTripIff`).
* **The circuit breaker never forgets failures while it is closed** (`ClosedRoundAccumulates`).

## Model

| member | source | states |
|---|---|---|
| LogSplitter.DrainIsScan | cmd/api/build_log.go:70-79 | looking ahead for the first CR or LF finds the same lines and remainder as reading the bytes one at a time |
| LogSplitter.LinesOfStream | cmd/api/build_log.go:70-100 | a text without bytes 13 and 10 is one line, or none if empty; either byte ends a line, and what follows is split by itself |
| LogSplitter.BufferBounded | cmd/api/build_log.go:66-86 | after every Write at most 2000 bytes are buffered and none of them ends a line |
| LogSplitter.HandedKeepsContent | cmd/api/build_log.go:66-101 | however the stream is cut, the concatenation of all lines handed over by Write and Close is the stream without its CR and LF bytes |
| LogSplitter.FeedAllFollowsScan | cmd/api/build_log.go:66-86 | on a bounded stream the writer's state after any prefix of the writes is that of the byte-by-byte reference |
| LogSplitter.EarlyFlushAddsLine | cmd/api/build_log.go:81-85 | a write that ends 2001 bytes into a line which goes on makes one line too many |
| LogSplitter.ChunkIndependence | cmd/api/build_log.go:66-101 | all ways of cutting a stream hand over its lines, if and only if its terminated lines have at most 2000 bytes and its last partial line at most 2001 |
| LogSplitter.LongLineIsCut | cmd/api/build_log.go:81-85 | for example, 2001 bytes whose newline comes in a second write are handed over as two lines |
| JobLog.JobLogWriter.PublishLocked | cmd/api/build_log.go:103-135 | the stripped line without trailing spaces and tabs is published under the next number, byte for byte up to 2000 bytes and else as its first 2000 and an ellipsis, or not at all if empty; list and numbers stay determined by the lines handed over |
| JobLog.ShortLineIsKept | cmd/api/build_log.go:103-111 | a line without escapes of at most 2000 bytes is kept byte for byte without the blanks behind it; an empty one is not kept |
| JobLog.LongLineIsShortened | cmd/api/build_log.go:108-110 | a longer one is kept as its first 2000 bytes and 0xE2 0x80 0xA6 |
| JobLog.ShortLinesAreKept | cmd/api/build_log.go:103-111 | of short lines without escapes and trailing blanks exactly the empty ones are left out |
| JobLog.JobLogWriter.Write | cmd/api/build_log.go:66-86 | consumes all bytes, hands over exactly the lines of one Feed step, and leaves a bounded buffer without terminators |
| JobLog.JobLogWriter.Printf | cmd/api/build_log.go:89-91 | is one write of the text and a newline |
| JobLog.JobLogWriter.Close | cmd/api/build_log.go:94-101 | hands over the trailing partial line if there is one and empties the buffer |
| LogPublishing.RunWriter | cmd/api/build_log.go:62-135 | a whole run publishes the kept lines numbered from 1 and leaves the last 2000 in the list; for output without escapes whose lines are short and end visibly, the published texts are the non-empty lines of the stream, whatever the writes |
| LogPublishing.BlankTailsPublishSame | cmd/api/build_log.go:66-135 | if no line has anything but blanks after 2001 bytes, every cutting keeps and shortens exactly what the lines of the stream would |
| LogPublishing.FeedAllFollows | cmd/api/build_log.go:66-86 | on such a stream the writer is, after any writes, in step with the byte-by-byte reference or has flushed all of the current line but blanks |
| LogPublishing.CutShows | cmd/api/build_log.go:66-135 | a cut before a visible byte that follows 2001 others of its line changes what is published |
| LogPublishing.CutsDoNotShowIff | cmd/api/build_log.go:66-135 | for every text without escape sequences: all ways of cutting it publish the same log, if and only if no line of it has anything but blanks after its first 2001 bytes |
| LogPublishing.LongLineShows | cmd/api/build_log.go:81-111 | for example, 2001 bytes followed in a second write by an x and a newline |
| LogStream.StreamReader.ReplayBacklog | cmd/api/deployment_jobs.go:939-950 | forwards the backlog in order and remembers the last number; stays open exactly if every line is the own user's |
| LogStream.StreamReader.OnMessage | cmd/api/deployment_jobs.go:957-991 | forwards a status update of the own user, and a log line of the own user if its number is above the last one; ignores what does not parse; closes exactly at another user's message |
| LogStream.StepKeepsInv | cmd/api/deployment_jobs.go:931-982 | every step of writer, reader, Redis or network keeps the protocol invariant |
| LogStream.ForwardedLinesAreConsecutive | cmd/api/deployment_jobs.go:931-982 | in every reachable state the client's log lines are consecutive lines of the writer with consecutive numbers: no duplicate, gap or reordering, even while the list is trimmed or expires |
| LogStream.DrainedClientIsComplete | cmd/api/deployment_jobs.go:931-982 | when the writer rests and the subscription is drained, an open client has every line from its first to the writer's last |
| LogStream.BacklogReachesBack | cmd/api/build_log.go:128-159 | the first line a client gets is the first of all or lies at least 2000 lines back, unless the list had expired |
| LogStream.SentOnlyGrows | cmd/api/deployment_jobs.go:939-991 | what was sent is never changed, and the first line of a streaming client is settled |
| LogStream.ClientSeesOnlyOwn | cmd/api/deployment_jobs.go:939-991 | in every reachable state every message a client was sent is its own user's |
| LogStream.StatusUpdatesAreForwarded | cmd/api/deployment_jobs.go:983-991 | in every reachable state the status updates sent are exactly the user's among those received, in order |
| LogStream.TakeStaysOpenIff | cmd/api/deployment_jobs.go:963-973 | receiving leaves an open client open if and only if the message is unparsable or the user's own |
| LogStream.PipelineIsPublishLocked | cmd/api/build_log.go:128-134 | run without interruption, push, trim and publish take a list and numbering that reflect the writer's kept lines to ones that reflect one line more, as JobLogWriter's invariant has it, and deliver that line |
| Reconciler.ScanIsSafeIff | cmd/api/deployment_jobs.go:867-902 | no run of the scan misses a task that is live throughout, if and only if tasks never move to a list read earlier than the one they leave |
| Reconciler.HiddenRun | cmd/api/deployment_jobs.go:871-902 | for every move against the order of the scan there is a run in which a live task is seen in no list |
| Reconciler.WorkersAreSafeForwarderIsNot | cmd/api/deployment_jobs.go:867-902 | moves between pending, active and retry as running workers make them are safe; the forwarder's return to pending is not, nor is the requeue of an active task at shutdown |
| Reconciler.SeenMeansHadTask | cmd/api/deployment_jobs.go:871-902 | a deployment counts as live only if it had a task at some moment of the scan |
| Reconciler.CollectPages | cmd/api/deployment_jobs.go:881-900 | paging through one list adds exactly the deployments its tasks name |
| Reconciler.DeploymentsWithLiveTasks | cmd/api/deployment_jobs.go:867-902 | the union over the four lists, a missing queue counting as empty, or an error when any listing fails |
| Reconciler.ReconcileStuckDeployments | cmd/api/deployment_jobs.go:836-865 | marks exactly the stale deployments without a live task whose update succeeds, counts them, and touches nothing when the queue cannot be listed |
| Reconciler.AnswersGiveLive | cmd/api/deployment_jobs.go:867-902 | the set the code collects from the listers' answers, of which a queue that does not exist is one, is the set of the scan's run |
| Reconciler.ReconcilerIsRight | cmd/api/deployment_jobs.go:836-902 | a stale deployment whose task is live throughout the scan and moved only by running workers is never marked; one without any task during the scan is marked unless its update fails |
| CaddyRoutes.ConfigRoutesAsPromised | cmd/api/caddy.go:242-470 | first-match evaluation of the compiled servers gives every port, host and path the answer of the routing spec: dashboard first, forced hosts redirected on the HTTP port, the rest proxied, other ports unanswered |
| CaddyRoutes.OrderMattersIff | cmd/api/caddy.go:350-372 | the answer to a request is the same for every iteration order if and only if no app decides it or all apps claiming the host have one target |
| CaddyRoutes.DisjointHostsNeedNoOrder | cmd/api/caddy.go:350-470 | with pairwise disjoint app hosts no request depends on an iteration order |
| CaddyRoutes.PlatformRoutesAnswer | cmd/api/caddy.go:306-348 | the dashboard's routes send /api/ to the API and the rest to the dashboard, its redirect answers every path, and both leave other hosts alone |
| CaddyRoutes.RedirectRoutesAnswer | cmd/api/caddy.go:439-470 | a host is redirected exactly when some container of the host has a deployment whose flag is true |
| CaddyRoutes.RedirectedIff | cmd/api/caddy.go:374-470 | under TLS a request on the HTTP port is redirected if and only if it is for the dashboard or some container of the host has a deployment whose flag is true |
| CaddyRoutes.LoadedFlagsForce | cmd/api/caddy.go:472-493 | the flags loaded for the table force a host exactly if the store answered, and with true for a deployment of a container of the host |
| RouteManagers.RouteManager.BuildRouteConfig | cmd/api/caddy.go:350-372 | one proxy route for every table entry, in some order of the table |
| RouteManagers.RouteManager.LoadForceHTTPSFlags | cmd/api/caddy.go:472-493 | the flags of the deployments in the table, none when they cannot be loaded |
| RouteManagers.RouteManager.BuildHTTPPortRoutes | cmd/api/caddy.go:439-470 | every host of a deployment for which the store answers true is redirected, and every other request is left to the proxy routes |
| RouteManagers.RouteManager.SyncPayload | cmd/api/caddy.go:242-470 | the payload pushed for the current table and the store's answer routes every request as the spec promises; under TLS exactly the dashboard and the hosts the store forces are redirected on the HTTP port |
| RouteManagers.RouteManager.ReplaceRoutes | cmd/api/caddy.go:728-753 | the table becomes the one called for by the containers, keeping the creation time of surviving routes |
| RouteManagers.RouteManager.RoutesDrifted | cmd/api/caddy.go:948-981 | reports drift if a container lacks its route, the counts differ, or Caddy is known to have lost our server |
| RouteManagers.RebuiltTargets | cmd/api/caddy.go:729-751 | the rebuilt table's name-to-target map is the containers' |
| RouteManagers.RebuiltKeepsCreation | cmd/api/caddy.go:729-751 | every rebuilt route is filed under its own name, begins with its default host and keeps an earlier creation time |
| RouteManagers.RebuiltRoute | cmd/api/caddy.go:197-213 | the route of a name is made from the last container of that name with an address and a port: target, deployment, default host and all verified domains |
| RouteManagers.RebuiltNames | cmd/api/caddy.go:729-751 | a name has a route exactly if there is such a container |
| RouteManagers.DriftTestIsExact | cmd/api/caddy.go:948-966 | with unique names, matching entries plus equal counts means equal name-to-target maps, and conversely |
| RouteManagers.QuietAfterReplaceIff | cmd/api/caddy.go:729-751 | right after ReplaceRoutes the test reports nothing if and only if no two eligible containers share a name |
| RouteManagers.QuietMeansInStepIff | cmd/api/caddy.go:948-966 | for every table a quiet test means that the targets are the wanted ones, if and only if no two eligible containers share a name, or two that do disagree about the target so that the test is never quiet |
| RouteManagers.QuietButStale | cmd/api/caddy.go:948-966 | otherwise there is a table that passes the test and has stale routes |
| RouteManagers.QuietMeansSameHostsIff | cmd/api/caddy.go:948-966 | for every table a quiet test means that a rebuild would leave the hosts as they are, if and only if no container is eligible or a conflict keeps the test from being quiet |
| RouteManagers.DuplicateNamesHideAStaleRoute | cmd/api/caddy.go:948-966 | for example, one container listed twice hides one stale route |
| Quotas.Account.Ensure | cmd/api/db.go:1431-1482 | creates whichever of the two rows is missing, with its defaults, and changes nothing else |
| Quotas.Account.ReserveDeploymentResources | cmd/api/resources.go:527-614 | adds the four amounts if none is negative and each of the four sums stays within its limit, else changes no usage and names the first limit exceeded, in the order CPU, memory, apps, storage |
| Quotas.Account.ReleaseDeploymentResources | cmd/api/resources.go:620-659 | subtracts each of the four amounts from an existing account, clamped at zero; errors for negative amounts and unknown users |
| Quotas.Account.BulkReserveResources | cmd/api/resources.go:663-688 | for non-negative updates, accepts exactly when one by one every update would be accepted, with the same final usage |
| Quotas.Account.BulkReleaseResources | cmd/api/resources.go:690-708 | subtracts the total, clamped at zero, or fails for a negative total or a user without a usage row; for non-negative updates it ends where the single releases end |
| Quotas.ReserveEachIsSum | cmd/api/resources.go:583-607 | non-negative reservations are all accepted exactly when the total fits |
| Quotas.BulkReserveIff | cmd/api/resources.go:663-688 | bulk and one-by-one reservation agree if and only if the list is empty and usage is within the quota, or it is not empty and has no negative entry, or its total is negative or does not fit |
| Quotas.ReleaseEachIsSum | cmd/api/resources.go:690-708 | a sequence of clamped releases is one clamped release of the total |
| Quotas.BulkReleaseIff | cmd/api/resources.go:690-708 | bulk and one-by-one release agree if and only if no entry is negative or the total is |
| Quotas.NothingIsRefused | cmd/api/resources.go:663-688 | for example, an empty bulk reservation is refused to a user over quota |
| Quotas.NegativeEntryHides | cmd/api/resources.go:663-708 | for example, +2 and -1 pass in bulk and fail one by one |
| QuotaTransactions.StepKeepsInv | cmd/api/resources.go:539-613 | every database step of every transaction keeps: a transaction past a lock holds it, and what it has read or written is still in step with the rows |
| QuotaTransactions.StepPerforms | cmd/api/resources.go:539-656 | a step either commits one operation, which is acceptable on the rows as they stand and changes them as it should, or leaves them alone |
| QuotaTransactions.StepRefines | cmd/api/resources.go:539-656 | rows change only at commits and as the sequential operations change them |
| QuotaTransactions.RunsAreSerializable | cmd/api/resources.go:539-656 | every interleaving leaves the rows as its committed operations would one at a time in commit order, each reservation being acceptable at its turn |
| QuotaTransactions.OnlyAQuotaChangeExceeds | cmd/api/resources.go:539-755 | a step takes usage out of the quota if and only if it sets a quota below the usage |
| QuotaTransactions.UsageStaysWithinQuota | cmd/api/resources.go:539-755 | under a fixed quota, usage is between zero and the quota in all four dimensions in every reachable state |
| QuotaTransactions.RefusalChangesNothing | cmd/api/resources.go:583-613 | a refused or rolled-back transaction changes no row and drops its locks; refusal means the rows as they stand do not allow the amounts |
| QuotaHistory.ParseOfFormat | cmd/api/resources.go:271-292 | reading back a printed integer gives it, so two printed limits differ exactly when the limits do |
| QuotaHistory.ChangesReplay | cmd/api/resources.go:271-306 | the rows of a change from what was read to what is stored move the replay of exactly the limits that differ, and their old values agree exactly if those limits were read as replayed |
| QuotaHistory.CommitIsExplainedIff | cmd/api/resources.go:125-205 | with rows in the order of commits, an update that read earlier keeps the replay right if and only if it sets no limit back to what it read over a change made since; it keeps the old values right too if and only if nothing changed since |
| QuotaOverlap.StepKeepsReplayIff | cmd/api/resources.go:125-205 | with updates overlapping, a step spoils a right replay if and only if it commits a change of a limit without a row, or with a row that is not dated after all rows about that limit |
| QuotaOverlap.ReplayIsRightIff | cmd/api/resources.go:125-205 | in every run of overlapping updates and resets, every listing of the history by date replays to the stored integer limits at every moment, if and only if no commit spoils it so |
| QuotaOverlap.StaleReadSpoilsReplay | cmd/api/resources.go:125-205 | for example, a run of two updates that read one app, of which the one back to one app commits last and leaves no row |
| QuotaOverlap.EarlyBeginSpoilsReplay | db/schema.sql:151-161 | for example, a run of two updates of which the one to three apps begins first and commits last, so that its row is listed before the one to two |
| QuotaOverlap.ReplaysToIff | cmd/api/resources.go:322-328 | all listings of a table by date replay to given limits, if and only if for each limit every row of the latest date about it says so, or there is none and it started there |
| QuotaOverlap.CommitKeepsLimitIff | cmd/api/resources.go:125-205 | a commit keeps one limit right if and only if it stores what was stored, or writes a row later than all about it |
| QuotaOverlap.UndisturbedSpoilsNothing | cmd/api/resources.go:125-205 | an update whose reading is still current and whose transaction began after all others that left rows spoils nothing |
| QuotaHistory.QuotaLedger.RecordQuotaHistory | cmd/api/resources.go:258-306 | appends the rows of the limits whose printed values differ, in their order |
| QuotaHistory.ApplyRequest | cmd/api/resources.go:138-172 | each of the five limits takes the requested value if one is asked for and not negative and keeps its own otherwise; there is nothing to update exactly if none is asked for |
| QuotaHistory.QuotaLedger.CommitUpdate | cmd/api/resources.go:130-205 | sets each limit to what is asked for it and no other, from whatever was read before, and leaves the history replayable with right old values if and only if the integer limits read are still the stored ones |
| QuotaHistory.QuotaLedger.UpdateQuota | cmd/api/resources.go:106-205 | undisturbed, each limit has the value asked for it if that is not negative and its old value otherwise; errors when nothing is asked, and keeps the history replayable |
| QuotaHistory.OneLimitAtATime | cmd/api/resources.go:138-172 | a request for one limit leaves the other four alone |
| QuotaOverlap.OnlyCommitsSetLimits | cmd/api/resources.go:174-205 | with updates overlapping, a commit sets what its request asks for on the limits as they stand, and no other step changes a limit |
| QuotaOverlap.CommitWritesCPU | cmd/api/resources.go:271-292 | a commit writes a row about CPU, with the printed values read and stored, exactly if these differ |
| QuotaHistory.QuotaLedger.ResetQuota | cmd/api/resources.go:714-755 | its row leaves the replay of the limits alone |
| DotEnv.ClosingQuoteIndex | scripts/monorepo/deploy_monorepo.py:95-104 | the index scan finds the quote that a recursive reader of the body finds, backslash pairs skipped in double quotes |
| DotEnv.ReadBody | scripts/monorepo/deploy_monorepo.py:76-85 | a value is read on over further lines until its quote closes or the text ends |
| DotEnv.ReadLine | scripts/monorepo/deploy_monorepo.py:63-91 | one line, with the lines its value uses up, gives the key and value of the reference or is skipped; DotEnvReading says what these are |
| DotEnv.ParseEnvText | scripts/monorepo/deploy_monorepo.py:52-92 | the index-driven loop over the text computes the reference reading of the file |
| DotEnvReading.CommentIsCut | scripts/monorepo/deploy_monorepo.py:89-90 | before a comment everything is kept, and the comment goes with the whitespace in front of it |
| DotEnvReading.ParseCommented | scripts/monorepo/deploy_monorepo.py:52-92 | a line of a name, a plain non-empty value, whitespace and a comment assigns the value, before any further text |
| DotEnvReading.CommentedReadsBackIff | scripts/monorepo/deploy_monorepo.py:89-90 | a plain value is what remains of such a line if and only if it is not empty; an empty one is replaced by the comment |
| DotEnvReading.SpacesDoNotMatter | scripts/monorepo/deploy_monorepo.py:63-75 | whitespace around the name and the value is ignored, unless the name is export |
| DotEnvReading.ExportDoesNotMatter | scripts/monorepo/deploy_monorepo.py:67-68 | export in front of a declaration is ignored |
| DotEnvReading.OtherLinesAreSkipped | scripts/monorepo/deploy_monorepo.py:65-74 | lines without an equals sign, or whose key is no name, are skipped |
| DotEnvReading.EscapesAre | scripts/monorepo/deploy_monorepo.py:86-88 | the five escapes stand for newline, CR, tab, quote and backslash, and any other is kept as written |
| DotEnvReading.BehindQuoteIsIgnored | scripts/monorepo/deploy_monorepo.py:76-85 | what stands behind a closing quote on its line is ignored |
| DotEnvReading.UnclosedQuoteTakesAll | scripts/monorepo/deploy_monorepo.py:80-85 | a quote that is never closed takes the rest of its line and all lines that follow |
| DotEnvReading.OtherLineEnds | scripts/monorepo/deploy_monorepo.py:56-56 | CR LF and a lone CR end lines as LF does |
| DotEnvRoundTrip.ParseQuotedLine | scripts/monorepo/deploy_monorepo.py:49-92 | a line KEY="escaped v" assigns exactly v, for every v, before any further text |
| DotEnvRoundTrip.QuotedFileRoundTrip | scripts/monorepo/deploy_monorepo.py:49-104 | a file of escaped double-quoted lines reads back as its entries, later ones winning, for all values |
| DotEnvRoundTrip.UnescapeEscape | scripts/monorepo/deploy_monorepo.py:49-49 | the reader's escapes undo backslash, quote, newline, CR and tab escaping |
| DotEnvRoundTrip.ClosingAfterEscape | scripts/monorepo/deploy_monorepo.py:95-104 | no quote inside an escaped value closes it |
| DotEnvExact.LiteralRoundTripIff | scripts/monorepo/deploy_monorepo.py:60-92 | for every value: a single-quoted value reads back as itself if and only if it has no quote, no carriage return and, if it spans lines, a first line that does not end in whitespace |
| DotEnvRoundTrip.CutCommentIff | scripts/monorepo/deploy_monorepo.py:89-90 | an unquoted value loses text to a comment exactly when whitespace precedes a # |
| DotEnvRoundTrip.PlainMeansUntouched | scripts/monorepo/deploy_monorepo.py:89-90 | plain values are exactly those that reading an unquoted value leaves alone |
| DotEnvRoundTrip.ExportRoundTrip | cmd/api/env_handlers.go:459-470 | exporting plain variables, in any order and under the handler's header, and reading the file gives the same variables |
| DotEnvExact.ExportRoundTripIff | cmd/api/env_handlers.go:459-470 | for any variables, printed in any order under the header: reading the export gives the same variables if and only if every name is valid and every value plain |
| DotEnvExact.ParseWeight | scripts/monorepo/deploy_monorepo.py:52-92 | reading adds no more names and values than the text is long, and that much only if all it adds is plain |
| DotEnvExact.PlainLinesWeight | cmd/api/env_handlers.go:467-469 | the printed lines are exactly as long as the weight of the variables |
| DotEnvExact.CommentIsLost | cmd/api/env_handlers.go:459-470 | for example, the value `1 #2` does not come back |
| DotEnvExact.FirstLineSpaceIsLost | scripts/monorepo/deploy_monorepo.py:60-92 | for example, a literal value whose first line ends in a space does not come back |
| EnvImport.IsValidKey | cmd/api/envs.go:125-160 | the scan accepts exactly the non-empty keys of ASCII letters, digits and underscores that do not start with a digit |
| EnvImport.KeyIsNormalized | cmd/api/envs.go:65-67 | whitespace around a key is dropped and its small letters become capitals, all else being kept |
| EnvImport.Prepare | cmd/api/env_handlers.go:255-303 | an entry is accepted exactly if its normalized key is valid and its value can be encrypted; its row has the encrypted value, the given or else the guessed category, the description, and is sensitive if the entry or the key says so |
| EnvImport.PrepareAll | cmd/api/env_handlers.go:249-302 | the prepared map is the fold of single upserts into nothing, its order lists each accepted key once, and rejected entries are reported in order |
| EnvImport.EnvTable.BulkUpsertEnvVarsFast | cmd/api/env_handlers.go:657-700 | the single INSERT is its rows one after the other, returns the keys it wrote, and fails as a whole when told to update a row twice |
| EnvImport.EnvTable.BulkAdd | cmd/api/env_handlers.go:214-353 | the table becomes what an import is to leave behind; rejected, saved and skipped keys are reported; nothing changes on error |
| EnvImport.EnvTable.BulkUpsertEnvVars | cmd/api/envs.go:578-668 | the table becomes the fold of single imports, in request order, of the entries the database lets through, and every entry is reported saved, skipped or rejected against the table its predecessors left |
| EnvImport.ReportIsTrue | cmd/api/envs.go:602-665 | an entry is reported saved exactly if its row was written, and skipped exactly if its key was there and not to be overwritten |
| EnvImport.RejectionsAre | cmd/api/env_handlers.go:255-296 | the batch reports as rejected exactly the entries that have no row |
| EnvImport.OrderIsDistinct | cmd/api/env_handlers.go:290-302 | the keys sent to the database are distinct and are those of the accepted entries |
| EnvImport.InsertedIsImported | cmd/api/env_handlers.go:657-700 | one INSERT over the deduplicated keys equals single upserts in request order, or, without overwriting, leaves stored keys alone |
| EnvImport.UpsertUnlessPresentIs | cmd/api/envs.go:226-300 | normalizing and classifying a second time changes nothing: one entry is one upsert |
| EnvImport.BatchAgreesIff | cmd/api/envs.go:602-665 | batch and one-by-one import leave the same table if and only if they overwrite or no new key has a first accepted row that differs from its last |
| EnvImport.FirstOrLast | cmd/api/envs.go:602-665 | of two differing rows for one new key the batch keeps the last and the one-by-one import the first |
| EnvImport.FirstOrLastExample | cmd/api/envs.go:602-665 | for example, the values 1 and 2 for a new key K |
| EnvImport.BatchAgreesOnDistinctKeys | cmd/api/envs.go:602-665 | they agree whenever the normalized keys are distinct |
| EnvImport.ImportWithoutOverwrite | cmd/api/env_handlers.go:657-700 | without overwriting, stored keys are untouched and a new key gets its last accepted row |
| EnvImport.ImportWithOverwrite | cmd/api/env_handlers.go:657-700 | with overwriting every accepted key gets its last accepted row, and all others are as they were |
| EnvImport.OutcomesPartition | cmd/api/env_handlers.go:304-353 | every key sent to the database is reported once, as skipped exactly when it existed and was not to be overwritten |
| Sessions.TokenStore.StoreRefreshToken | cmd/api/db.go:1517-1547 | adds one unrevoked row, or fails, for a row that exists, no user or a failing database, and changes nothing |
| Sessions.TokenStore.ConsumeRefreshToken | cmd/api/db.go:1553-1630 | succeeds exactly for an unrevoked, unexpired row, which it revokes, so that a second call fails |
| Sessions.TokenStore.RevokeAllUserTokens | cmd/api/db.go:1633-1655 | revokes all of a user's rows, and changes nothing else in any row |
| Sessions.LineOfDescent | cmd/api/auth.go:459-499 | a marked token has a chain of marked predecessors of the same user back to a second-factor check |
| Sessions.StepKeepsMarks | cmd/api/admin_mfa.go:203-312 | every step of every handler keeps: a marked token, or a handler about to issue one, is explained by a check or by an older marked token of the same user |
| Sessions.StepKeepsUse | cmd/api/db.go:1579-1630 | every step keeps: an exchanged refresh token is revoked or gone, and was exchanged once |
| Sessions.StepKeepsCodes | cmd/api/admin_mfa.go:112-125 | every step keeps: a redeemed recovery-code hash is stored for nobody and was redeemed once |
| Sessions.MarkedTokensDescendFromFactor | cmd/api/auth.go:388-404 | in every reachable state each token with the MFA mark descends from a successful second-factor check by the same user |
| Sessions.AdmittedRequestsPassedFactor | cmd/api/auth.go:580-601 | every request the administration lets in carries such a token |
| Sessions.RefreshTokensAreSingleUse | cmd/api/db.go:1579-1630 | over every run with any number of concurrent handlers each refresh token is exchanged at most once |
| Sessions.RecoveryCodesAreSingleUse | cmd/api/admin_mfa.go:112-125 | each recovery-code hash is redeemed at most once, and every redeemed one was stored |
| Sessions.RefreshGoesThroughIff | cmd/api/auth.go:473-481 | a refresh goes through exactly if its token's row is there, not revoked and not expired, and then revokes it |
| Sessions.RefreshKeepsMarkIff | cmd/api/auth.go:483-499 | both new tokens are marked exactly if the old one was and the account still had MFA on when it was read |
| Sessions.PasswordAloneIsHeldBack | cmd/api/auth.go:384-404 | a login marks no token, and gives an administrator with MFA a password-only token and no session |
| RestartLimiter.RestartAudit.Record | cmd/api/db.go:2757-2798 | appends one write, stored or lost, and keeps the history guarded |
| RestartLimiter.RestartAudit.HandleUnhealthy | cmd/api/health.go:449-592 | attempts a restart exactly when counting works and fewer stored rows than the limit, three if none is set, lie in the window, and tries to write the attempt and its outcome, or the alert; does nothing when counting fails |
| RestartLimiter.RestartAudit.Run | cmd/api/health.go:449-592 | after any checks every five-minute window holds at most `limit` attempts beyond those whose row was lost, and at most half the limit, rounded up, when every row is stored |
| RestartLimiter.AtMostLimitAttempts | cmd/api/db.go:2800-2840 | counting stored rows before each attempt bounds the attempts of every window, wherever it starts, by the limit plus the lost rows |
| RestartLimiter.AtMostHalfWhenPaired | cmd/api/health.go:506-576 | with every outcome row written, attempt and outcome both count, which halves the bound |
| RestartLimiter.BoundsAreReached | cmd/api/health.go:449-469 | both bounds are the best possible, for every limit and every number of lost rows |
| CircuitBreaker.HealthCheckCircuitBreaker.Allow | cmd/api/health.go:120-138 | admits unless open and not yet timed out; an admitted open breaker becomes half open |
| CircuitBreaker.HealthCheckCircuitBreaker.RecordSuccess | cmd/api/health.go:140-148 | closes and clears a half-open breaker only |
| CircuitBreaker.HealthCheckCircuitBreaker.RecordFailure | cmd/api/health.go:150-161 | counts, remembers the moment and opens at the threshold |
| CircuitBreaker.HealthCheckCircuitBreaker.CheckOnce | cmd/api/health.go:250-304 | a round is admitted, cut short, or counts its failures and then a success |
| CircuitBreaker.ClosedIffBelowThreshold | cmd/api/health.go:120-161 | after every sequence of calls the breaker is closed if and only if its failures are below the threshold |
| CircuitBreaker.LatestFailure | cmd/api/health.go:150-161 | the remembered moment is that of the latest failure |
| CircuitBreaker.OpenWaitsOutTheTimeout | cmd/api/health.go:120-138 | an open breaker admits a round if and only if more than resetTimeout has passed since the latest failure |
| CircuitBreaker.HalfOpenRoundDecides | cmd/api/health.go:250-304 | a half-open round that runs to the end closes the breaker if nothing failed in it and opens it otherwise |
| CircuitBreaker.HalfOpenIff | cmd/api/health.go:120-161 | a breaker becomes half open exactly by a round that an open one admits after the timeout, and stays so exactly until a success or a failure at the threshold |
| CircuitBreaker.HalfOpenIsReached | cmd/api/health.go:120-161 | every breaker can become half open |
| CircuitBreaker.ClosedRoundAccumulates | cmd/api/health.go:140-161 | failures of closed rounds add up, and rounds without failures take none away |
| RiskSweeper.Sweeper.Observe | cmd/api/admin_billing.go:139-150 | every counter is the length of its trailing run of hot rounds, and the reported ids are those whose run is long enough |
| RiskSweeper.Sweeper.Sweep | cmd/api/admin_billing.go:154-190 | a round advances the counters unless the containers cannot be listed; every deployment reported before the first failing insert has exactly one open alert, and new rows belong to those that had none |
| RiskSweeper.AlertTable.OpenRiskAlert | cmd/api/admin_billing.go:193-214 | inserts exactly when no alert of the deployment is open, and no deployment ever has two |
| RiskSweeper.AlertTable.OpenAll | cmd/api/admin_billing.go:178-188 | opens alerts up to the first failing insert, keeping at most one open alert each |
| RiskSweeper.AlertTable.ResolveRiskAlert | cmd/api/admin_billing.go:280-292 | closes an open alert, reports anything else as not found, and keeps one open alert a deployment |
| RiskSweeper.RunIsHotInLast | cmd/api/admin_billing.go:139-150 | a trailing run of at least n rounds is being hot in each of the last n rounds |
| RiskSweeper.ReportedIffSustained | cmd/api/admin_billing.go:139-150 | an id is reported exactly when it was hot in each of the last `required` rounds |
| NameRules.SlugifyName | cmd/api/db.go:3383-3412 | yields the words of the trimmed, lower-cased name, joined by single dashes |
| NameRules.DockerSafeTag | cmd/api/build.go:531-554 | yields the same slug, or "app" if it is empty, although its separator flag starts the other way round |
| NameRules.WordsAre | cmd/api/db.go:3383-3412 | a run of small letters and digits is one word, and any other character separates the words before it from those after it |
| NameRules.SlugOfTwoWords | cmd/api/db.go:3383-3412 | for example, two words with any other ASCII character between them become these words joined by a dash |
| NameRules.IsValidDockerImageName | cmd/api/build.go:354-378 | the scan accepts exactly names with word characters at both ends and dots, underscores and dashes inside |
| NameRules.ValidateAppName | cmd/api/main.go:607-620 | accepts hostname labels of at most 63 characters; every suggestion it makes is itself accepted, is the slug, cut to 63 characters less a trailing dash, and is empty only for names without word characters |
| NameRules.SlugIsLabel | cmd/api/db.go:3383-3412 | a non-empty slug is a hostname label without double dashes |
| NameRules.SlugFixedPointIff | cmd/api/db.go:3383-3412 | slugging leaves a name alone if and only if it is empty or a label without double dashes |
| NameRules.SlugIsIdempotent | cmd/api/db.go:3383-3412 | slugging twice is slugging once |
| NameRules.TagIsIdempotent | cmd/api/build.go:531-554 | making a tag twice is making it once |
| NameRules.TagIsValidImageName | cmd/api/build.go:354-378 | every tag passes the image name test |
| NameRules.CutIsLabel | cmd/api/main.go:607-620 | cutting a label short and trimming dashes leaves a label |
| TreeSummary.SummarizeTree | cmd/api/repo_preflight.go:57-81 | total bytes and files are those of the blobs, the ranking lists every group once with its bytes, adds up to the total, and no omitted group weighs more than a reported one |
| TreeSummary.RankGroups | cmd/api/repo_preflight.go:73-76 | the sorted list has every group once with its bytes and adds up to the blobs' total |
| TreeSummary.TotalUp | cmd/api/repo_preflight.go:58-72 | the loop totals the blobs and books each under its group |
| TreeSummary.Directory | cmd/api/repo_preflight.go:65-71 | a blob is booked under its first three levels, its directory, or itself |
| TreeSummary.GroupsAre | cmd/api/repo_preflight.go:65-71 | a file at the top is booked under itself, one up to two directories deep under its directory, and any other under its first three levels |
| TreeSummary.SplitsAre | cmd/api/repo_preflight.go:65-65 | a path without slash is one part, and a slash separates the parts before it from those after it |
| TreeSummary.BlobsAre | cmd/api/repo_preflight.go:59-64 | bytes and count are those of the blobs alone |
| TreeSummary.JoinOfSplit | cmd/api/repo_preflight.go:65-71 | splitting a path at slashes and joining it gives the path |
| TreeSummary.OneEntryOneGroup | cmd/api/repo_preflight.go:57-81 | each blob adds its size to exactly one group |
| TreeSummary.GroupsAddUp | cmd/api/repo_preflight.go:57-81 | the groups' bytes sum to the total of all blobs |

## Left out

- LogPublishing.CutsDoNotShowIff: about text without escape sequences; one that is cut in two is not recognized in either piece.
- JobLog.JobLogWriter.PublishLocked: the removal of terminal escapes is a function given from outside; JSON encoding, timestamps and the context deadline of the Redis pipeline are not modelled, and the pipeline's commands never fail.
- LogStream.ForwardedLinesAreConsecutive: assumes that the publishing side is one writer run; a job id executed twice starts numbering again, which the reader would drop as seen.
- Reconciler.CollectPages: pages of one list belong to one snapshot of it; moves between two page readings of a list longer than 500 are not modelled.
- Reconciler.ReconcilerIsRight: says nothing about a deployment that finishes during the scan; the code may overwrite its result.
- RouteManagers.RouteManager.ReplaceRoutes: whether the push reaches Caddy; the table is replaced before it. Retries, backups of Caddy's configuration and the health wait belong to the push.
- RouteManagers.RouteManager.SyncPayload: validateRoute's host check is not modelled: it looks for hosts of another slice type than the compiler builds (cmd/api/caddy.go:561), so it never sees one. Caddy's automatic HTTPS settings are not modelled.
- AddRoute and RemoveRoute: single map updates before the same push.
- Quotas.Account.ReserveDeploymentResources: NUMERIC(10,2) rounding of CPU amounts and 64-bit overflow are not modelled.
- QuotaTransactions.RunsAreSerializable: one user's two rows; the statements of EnsureResourceAccounting have run before.
- QuotaOverlap.ReplayIsRightIff: about the whole table, of which one call of GetQuotaHistory lists at most the 100 newest rows. The change of max_cpu is recorded but not replayed, since its printed form loses digits.
- DotEnv.ParseEnvText: the file's encoding; the text is taken after decoding, with newlines translated.
- EnvImport.EnvTable.BulkAdd: ownership checks, key classification and encryption are parameters; value warnings and the change history are left out. Upper-casing is exact for every rune that maps to ASCII; the others stay outside ASCII, so their keys are rejected either way.
- NameRules.SlugifyName: lower-casing is exact for every rune that maps to ASCII; the others are separators either way.
- Sessions.AdmittedRequestsPassedFactor: API keys, JWT encoding, bcrypt, TOTP arithmetic and token expiry other than that of stored rows; the user row a request is admitted by is the current one.
- RestartLimiter.RestartAudit.Run: checks of one deployment by one health checker; rows of manual restarts are not counted by the query and are left out.
- RiskSweeper.Sweeper.Sweep: one sweeper; two of them could both pass the NOT EXISTS test.
- TreeSummary.SummarizeTree: the order of directories of equal weight is arbitrary in the source and in the contract.
- "Usage equals the sum of live deployments": not what the code does; the workflow releases on errors it has not reserved for (cmd/api/deployment_jobs.go:1048-1055) and deletion releases no storage (cmd/api/main.go:798-801).
- "A user has exactly one primary domain": not kept by the code when the named domain belongs elsewhere (cmd/api/domains.go:500-510) or after a transfer (cmd/api/domains.go:978-986).
- The deployment workflow's calls to Docker, git, nixpacks, GitHub, DNS and TLS: only their success or failure could be modelled.
- HTTP handlers' JSON and status codes, WebSocket upgrades, CSV and HTML export: input and output only.
- Listing queries, pagination, migrations, host telemetry and the log file truncation: small independent functions.
