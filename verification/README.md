# Verification of the panel, its nodes and its dashboard

A small control plane: a panel keeps users, sessions, nodes, Xray inbounds and metrics; an agent on every
node keeps a stream to the panel and applies the Xray configurations it is sent; a browser dashboard shows
the nodes. This project models the parts with the most state and arithmetic and proves what they promise.
Verify with `dafny verify dfyconfig.toml`.

| file | component |
|---|---|
| `Lttb.dfy` | chart downsampling (largest triangle, three buckets), in exact arithmetic |
| `CpuAverage.dfy` | the node's CPU average over wrapping 64-bit counters |
| `LiveSocket.dfy` | the dashboard's WebSocket reconnect loop |
| `NodeList.dfy` | keyed reconciliation of the node cards |
| `Sessions.dfy` | login sessions against their history |
| `MetricsStore.dfy`, `MetricsQuery.dfy` | the metrics table with its write throttle; raw and bucketed queries |
| `Json.dfy`, `Decimal.dfy`, `XrayManager.dfy` | injection of the stats API into an Xray configuration |
| `Inbounds.dfy` | inbound CRUD and the configuration built for a node |
| `ConfigPush.dfy` | the push of configurations to the nodes' files |
| `NodeService.dfy`, `NodeStreams.dfy`, `NodeAgent.dfy` | the node table, the stream registry, one connection, the agent's secret |
| `NodeProtocol.dfy` | agents and panel as one interleaving state machine |
| `NodeRefinement.dfy` | that machine against the sequential `Connect` |
| `NodePresence.dfy` | registry, online status and snapshots over every interleaving |
| `NodeVisibility.dfy` | when a connected node is shown offline and an unserved one online, exactly |
| `PushVisibility.dfy` | which connected nodes a configuration pass reaches |
| `SecretRotation.dfy` | the rotating reconnect secrets over every interleaving |
| `SecretLockout.dfy` | when an agent can still reconnect and when never again, exactly |
| `NodeScenarios.dfy` | runs from a first start that reach the states in which panel and nodes disagree |

Objects whose methods change fields are classes whose methods are proved against functions on values; the
lemmas are about those functions. The environment (clock, random values, password comparison, database and
file outcomes) enters as parameters.

Facts about the code that are worth knowing and are proved here:

- Losing an ack can shut an agent out for good. The states from which it never connects again are exactly
  `SecretLockout.LockedOut` (`SecretLockout.NeverConnectsIff`), and the events that lead there exactly
  `SecretLockout.Locks` (`SecretLockout.LockingEventsIff`). The first loss does so if and only if the agent has a
  secret file, except for a late grant of a first handshake, which changes nothing for it
  (`SecretLockout.LostAckIsFatal`); without a file, a restart makes it register as a second node
  (`SecretLockout.WithoutFileRegistersAnew`).
- A connected node can be shown offline. `NodeVisibility.DarkStepIff` says which events make it so and which end
  it, `NodeScenarios` reaches both routes, the ordinary reconnect race among them. A configuration pass skips such
  a node (`PushVisibility.PassReachesIff`).
- A node can be shown online with nobody serving it, after a failed ack send. `NodeVisibility.UnservedStepIff` says
  which events make it so and which end it, `NodeScenarios.LeftOnlineReached` reaches it.
- The agent of a deleted node does not register anew (`SecretRotation.DeletedStaysOut`).
- A deleted inbound's tag can never be reused: the service checks live rows only, the unique index all rows
  (`Inbounds.CreateAcceptedIff`, `Inbounds.RetiredForEver`).
- Connecting does not push a configuration; the file of a node that was away is up to date exactly when its
  inbounds did not change (`ConfigPush.ReconnectKeepsStaleFile`, `ConfigPush.StaleFileReached`).
- Counters that go back can drive the CPU percentage above 100 or be hidden by the wrap-around;
  `CpuAverage.RawInRangeIff` says when, for all pairs of samples.
- Two incoming nodes with one new id leave two cards (`NodeList.RenderUnique`), of which later renders look at the
  last one only (`NodeList.OldCardKeptIff`).
- The write throttle does not survive a restart; the samples stay spaced exactly when the first clock reading is
  late enough (`MetricsStore.FirstRecordSpacedIff`).

Where a comment and the code disagree, the model follows the code: the comment on `SetStatus`
(panel/panel-backend/internal/node/repository.go:64) says it also updates the last-seen time, the code updates
the status alone; the comment on `Query` (panel/panel-backend/internal/metrics/store.go:159) aims at about 300
points, the code yields up to 311.

## Model

| member | source | states |
|---|---|---|
| `Lttb.BucketMean` | panel/panel-backend/web/static/js/charts.js:78-85 | the accumulating loop and its divisions give the mean of a non-empty bucket |
| `Lttb.LargestInBucket` | panel/panel-backend/web/static/js/charts.js:77-100 | one round of the bucket loop: returns the first index of the bucket whose triangle with the previously chosen point and the mean of the next bucket is largest |
| `Lttb.Downsample` | panel/panel-backend/web/static/js/charts.js:63-106 | `lttb` for every series, key and threshold: the points at the indices of a proper selection, the whole series when it is short enough, the two end points for a threshold of two or less |
| `Lttb.PlottedSamples` | panel/panel-backend/web/static/js/charts.js:144-153 | what is plotted has exactly min(length, point budget) points and is the downsampling for that budget |
| `Lttb.PointBudget` | panel/panel-backend/web/static/js/charts.js:144 | eight tenths of the width rounded down, kept in 150..500 (below a width of 187.5, above one of 625), and 256 when the width is zero |
| `Lttb.BucketBounds` | panel/panel-backend/web/static/js/charts.js:71-85 | inside the loop the current bucket is non-empty and so is the next one, so the count divided by is never zero, and no boundary leaves the series |
| `Lttb.BucketsPartition` | panel/panel-backend/web/static/js/charts.js:67-76 | the buckets partition exactly the inner indices 1..n-2; the bucket after the last one is the final point alone |
| `Lttb.BoundaryExact` | panel/panel-backend/web/static/js/charts.js:67-76 | the boundaries without division: i times the inner indices divided evenly over the inner buckets, rounded down |
| `Lttb.SelectionShape` | panel/panel-backend/web/static/js/charts.js:63-106 | a selection has exactly t indices, strictly increasing from 0 to n-1, one in each bucket |
| `Lttb.DownsampleLength` | panel/panel-backend/web/static/js/charts.js:63-106 | over all inputs the result has min(n, t) points if and only if n <= t or t >= 2; otherwise it has two |
| `Lttb.SelectionUnique` | panel/panel-backend/web/static/js/charts.js:71-103 | series and threshold determine the selection |
| `Lttb.SelectionInvariant` | panel/panel-backend/web/static/js/charts.js:71-103 | every composition of shifts, non-zero stretches, axis swaps and shears, that is every invertible affine map of the plane, keeps the selected indices |
| `Lttb.SelectionKeptByRescaling` | panel/panel-backend/web/static/js/charts.js:71-103 | rescaling and shifting timestamps and values (non-zero factors, negative ones included) keeps the selected indices |
| `Lttb.MeanOfImage` | panel/panel-backend/web/static/js/charts.js:78-85 | the mean over a bucket commutes with each generating map |
| `Lttb.MeanDetermined` | panel/panel-backend/web/static/js/charts.js:78-85 | the mean of one point is the point, and a further point shifts it by its share: what the mean of every bucket is |
| `Lttb.AreaOfImage` | panel/panel-backend/web/static/js/charts.js:92-96 | each generating map multiplies all triangle areas by one factor |
| `Lttb.AreaOnUnitBase` | panel/panel-backend/web/static/js/charts.js:92-96 | over the base from (0,0) to (1,0) the area is the distance of the third point from it, which with `AreaOfImage` fixes every area |
| `Lttb.MetricOf` | panel/panel-backend/web/static/js/charts.js:85-95 | a sample counts with the value of its key, a missing one with zero |
| `Lttb.ChosenPlainly` | panel/panel-backend/web/static/js/charts.js:71-103 | in plain coordinates: no sample of the bucket has a larger |(aTS - avgTS) * (val - aVal) - (aTS - ts) * (avgVal - aVal)| than the chosen one, and every earlier one a smaller |
| `Lttb.OnlyPointOffTheLine` | panel/panel-backend/web/static/js/charts.js:71-103 | a bucket whose only sample off the line through the sample chosen before and the next mean is k yields k |
| `Lttb.SpikeIsChosen` | panel/panel-backend/web/static/js/charts.js:71-103 | five concrete points at threshold 3: the spike is chosen |
| `CpuAverage.Sampler.SampleCPU` | node/internal/status/collector.go:78-105 | one reading moves sample and average as the recurrence says and reports the value it says, on all four exits |
| `CpuAverage.WrappedDeltas` | node/internal/status/collector.go:70-94 | differences of 64-bit sums that may have wrapped are the true differences whenever those fit 64 bits |
| `CpuAverage.RawInRange` | node/internal/status/collector.go:93-101 | when no counter goes back the raw percentage lies in 0..100 |
| `CpuAverage.RawFromCounters` | node/internal/status/collector.go:70-101 | from the eight counters: the raw percentage is 100 times the advance of user, nice, system, irq, softirq and steal over the advance of all eight |
| `CpuAverage.WaitingIsIdle` | node/internal/status/collector.go:70-76 | a reading that advances only idle and iowait is 0 percent |
| `CpuAverage.WorkIsBusy` | node/internal/status/collector.go:70-76 | a reading that advances only the other six counters is 100 percent |
| `CpuAverage.ReadingMovesAverage` | node/internal/status/collector.go:101-103 | a reading with ticks gives 0.3 times its raw percentage plus 0.7 times the old average, and becomes the sample to compare with |
| `CpuAverage.ReadingsWithoutEffect` | node/internal/status/collector.go:78-99 | failed readings change nothing, first ones and those without ticks only replace the sample |
| `CpuAverage.RawInRangeIff` | node/internal/status/collector.go:93-101 | for all pairs of samples with a nonzero wrapped total: the raw percentage is at most 100 if and only if the true idle delta is at least 2^64 times (turns of the true total delta minus turns of the true busy delta); it is never negative |
| `CpuAverage.RawInRangeByDirection` | node/internal/status/collector.go:93-101 | the same for deltas below 2^64: with busy sum and total moving the same way, if and only if the idle sum does not go back; with only the total going back, if and only if the busy delta fits what is left of 2^64; with only the busy sum going back, if and only if the idle delta reaches 2^64 |
| `CpuAverage.WrapByTurns` | node/internal/status/collector.go:70-76 | 64-bit wrap-around takes away exactly the whole turns |
| `CpuAverage.IdleGoingBackOvershoots` | node/internal/status/collector.go:93-101 | a concrete pair of samples whose idle counter goes back by one tick, less than the busy ticks meanwhile, reads as 200 percent |
| `CpuAverage.WrapHidesIdleAndShowsBusy` | node/internal/status/collector.go:93-101 | concrete pairs: an idle counter going back further than the busy one advanced stays within 100 percent, a busy counter going back exceeds it |
| `CpuAverage.RoundedPercent` | node/internal/status/collector.go:104 | rounding to two digits keeps a percentage a percentage and moves it by at most 0.005 |
| `CpuAverage.RunStaysPercent` | node/internal/status/collector.go:78-105 | over every run whose counters advance, wraps included, average, raw percentages and reports stay in 0..100, each report after the first within 0.005 of the average |
| `CpuAverage.RunClosedForm` | node/internal/status/collector.go:101-102 | the average after any run equals 0.7^k times the initial one plus the geometrically weighted raw percentages |
| `CpuAverage.DecayIsPower` | node/internal/status/collector.go:102 | the decay of the closed form is multiplication by 0.7^k |
| `CpuAverage.WeightsInNumbers` | node/internal/status/collector.go:101-102 | the weight of the j-th reading from the end is 0.3 * 0.7^j |
| `CpuAverage.RunsConverge` | node/internal/status/collector.go:101-102 | two runs over the same readings from different averages differ by exactly 0.7^k of the initial gap |
| `LiveSocket.Dashboard.Boot` | panel/panel-backend/web/static/js/dashboard.js:388-459 | loading the page leaves the state after one connection attempt |
| `LiveSocket.Dashboard.ConnectWS` | panel/panel-backend/web/static/js/dashboard.js:398-433 | does nothing while a socket is connecting or open, otherwise creates a socket or, if that throws, schedules a retry |
| `LiveSocket.Dashboard.OnTimer` | panel/panel-backend/web/static/js/dashboard.js:398-438 | a firing timer is consumed and tries to connect |
| `LiveSocket.Dashboard.OnOpen` | panel/panel-backend/web/static/js/dashboard.js:408-413 | opening resets the delay and stops polling |
| `LiveSocket.Dashboard.OnClose` | panel/panel-backend/web/static/js/dashboard.js:424-428 | closing drops the socket, starts polling and schedules a retry |
| `LiveSocket.BootEstablishesInv` | panel/panel-backend/web/static/js/dashboard.js:388-459 | the invariant of the reconnect loop holds after boot |
| `LiveSocket.BootState` | panel/panel-backend/web/static/js/dashboard.js:388-459 | the first attempt in numbers: a connecting socket, or a retry after 1000 ms and a delay of 1500 ms |
| `LiveSocket.RunKeepsInv` | panel/panel-backend/web/static/js/dashboard.js:388-454 | in every run exactly one live socket or one pending timer exists, an open socket excludes polling, delays stay in 1000..30000 ms and do not shrink without an open |
| `LiveSocket.PollingIsHistory` | panel/panel-backend/web/static/js/dashboard.js:408-454 | in every run the page polls if and only if the last close or open was a close |
| `LiveSocket.NeverStalls` | panel/panel-backend/web/static/js/dashboard.js:398-438 | in every reachable state some event is enabled, and a firing timer always tries a new socket: the guard never swallows it |
| `LiveSocket.BackoffClosedForm` | panel/panel-backend/web/static/js/dashboard.js:389-438 | the delay after n failures in a row is min(1000 * 1.5^n, 30000) |
| `LiveSocket.DelayIsBackoff` | panel/panel-backend/web/static/js/dashboard.js:408-438 | in every run the delay is determined by the number of failures since the last open |
| `NodeList.Container.RenderNodeList` | panel/panel-backend/web/static/js/dashboard.js:341-374 | one render turns the container into the specified one; an empty list empties it |
| `NodeList.Container.CollectExisting` | panel/panel-backend/web/static/js/dashboard.js:354-357 | the map from id to element, the last element winning for each id |
| `NodeList.Container.RemoveMissing` | panel/panel-backend/web/static/js/dashboard.js:359-363 | exactly the mapped elements whose id is not incoming are removed, whatever the order of the iteration |
| `NodeList.Container.PlaceCard` | panel/panel-backend/web/static/js/dashboard.js:365-373 | a card replaces the element its id had at the start, if that is still in the container, or is appended |
| `NodeList.RenderClosedForm` | panel/panel-backend/web/static/js/dashboard.js:341-374 | for every incoming list, over a container with unique ids, the result is the surviving cards in place followed by the new ones |
| `NodeList.RenderOrder` | panel/panel-backend/web/static/js/dashboard.js:341-374 | survivors keep their relative order and come first, new cards follow in incoming order |
| `NodeList.OldCardsInOrder` | panel/panel-backend/web/static/js/dashboard.js:341-374 | of two old cards whose nodes are still listed, the one in front stays in front |
| `NodeList.NewCardsInOrder` | panel/panel-backend/web/static/js/dashboard.js:341-374 | the cards of nodes new to the container stand in the order of the incoming list |
| `NodeList.OldCardsFirst` | panel/panel-backend/web/static/js/dashboard.js:341-374 | no card of a new node stands before one that was there already |
| `NodeList.RenderShowsIncoming` | panel/panel-backend/web/static/js/dashboard.js:365-373 | every card shows an incoming node; for a surviving id it is the first one carrying that id, later ones are lost on the detached element |
| `NodeList.RenderUnique` | panel/panel-backend/web/static/js/dashboard.js:341-374 | ids stay unique if and only if no id new to the container comes twice |
| `NodeList.RenderResult` | panel/panel-backend/web/static/js/dashboard.js:341-374 | the ids shown are exactly the incoming ones, each card showing an incoming info, with uniqueness under the exact condition |
| `NodeList.RendersStayUnique` | panel/panel-backend/web/static/js/dashboard.js:341-374 | after any sequence of renders of lists with unique ids the container shows exactly the last list: one card per id, each showing that node's info |
| `NodeList.OldCardKeptIff` | panel/panel-backend/web/static/js/dashboard.js:354-373 | a render over any container, repeated ids included, keeps an old card unchanged if and only if a later card has its id |
| `Sessions.Service.Open` | panel/panel-backend/internal/auth/service.go:27-43 | sessions survive a start, an empty user table gets a default user, a zero duration means a week |
| `Sessions.Service.GetUser` | panel/panel-backend/internal/auth/repository.go:45-54 | finds a user of that name if and only if there is one |
| `Sessions.Service.Login` | panel/panel-backend/internal/auth/service.go:46-72 | succeeds exactly for a known user with the right password and an unused token, and stores a session with the expiry fixed now |
| `Sessions.Service.ValidateToken` | panel/panel-backend/internal/auth/service.go:76-92 | answers the session's user, or the error of the first check that fails, and deletes an expired row on the way |
| `Sessions.Service.ChangePassword` | panel/panel-backend/internal/auth/service.go:100-121 | on success replaces the hash and drops all sessions of that user, otherwise changes nothing and names the failed check |
| `Sessions.Service.ChangeUsername` | panel/panel-backend/internal/auth/service.go:124-131 | renames unless another user has the name; sessions are kept |
| `Sessions.ValidateRefinesHistory` | panel/panel-backend/internal/auth/service.go:46-141 | over every run with a clock that does not go back and fresh tokens, a token is answered with user u at time t if and only if a login of u issued it, no logout of it or password change of u came since, and t is not after its expiry |
| `Sessions.RefinesRun` | panel/panel-backend/internal/auth/service.go:46-141 | the table keeps refining the history, step by step, over every such run |
| `Sessions.ReplyRefines` | panel/panel-backend/internal/auth/service.go:76-92 | a table that refines the history answers as the history says |
| `Sessions.StandsAfter` | panel/panel-backend/internal/auth/service.go:95-121 | what one event does to the standing of every token |
| `Sessions.StandsUnique` | panel/panel-backend/internal/auth/service.go:61-69 | a token stands for one user with one expiry |
| `Sessions.EssentialHistory` | panel/panel-backend/internal/auth/repository.go:133-138 | a run without its validations and cleanups has the same history |
| `Sessions.LazyDeletionInvisible` | panel/panel-backend/internal/auth/service.go:82-141 | dropping every validation and cleanup from a run changes no later answer |
| `MetricsStore.Store.Open` | panel/panel-backend/internal/metrics/store.go:61-79 | a start keeps the table and forgets the throttle |
| `MetricsStore.Store.RecordSample` | panel/panel-backend/internal/metrics/store.go:102-136 | skips within 25 seconds of the last write, otherwise sets the throttle and then appends the row, with the next id, the whole second and the metrics given, if the database takes it |
| `MetricsStore.Store.DropNode` | panel/panel-backend/internal/metrics/store.go:195-201 | forgets the node's throttle and rows and nothing else |
| `MetricsStore.Store.RemoveOld` | panel/panel-backend/internal/metrics/store.go:222-231 | removes exactly the rows before the cutoff |
| `MetricsStore.StartHasSpacing` | panel/panel-backend/internal/metrics/store.go:61-79 | the spacing invariant holds at a process start over any table |
| `MetricsStore.StepKeepsInv` | panel/panel-backend/internal/metrics/store.go:61-231 | every operation, a process restart included, keeps the spacing invariant of all lifetimes, with any clock |
| `MetricsStore.RunKeepsSpacing` | panel/panel-backend/internal/metrics/store.go:61-231 | over every run with any number of restarts, clocks going backwards included, stored samples of one node from one process lifetime are at least 25 s apart, in every lifetime started in the run |
| `MetricsStore.FirstRecordSpacedIff` | panel/panel-backend/internal/metrics/store.go:71-111 | the first record of a node after a restart is always taken, and keeps all samples of a node spaced, lifetimes aside, if and only if its clock is at least 25 s after the latest stamp stored for the node |
| `MetricsStore.LateStartsKeepSpacing` | panel/panel-backend/internal/metrics/store.go:61-231 | if the first record of every node after every start is that late, all samples of a node are spaced over the whole run, across restarts |
| `MetricsStore.LatestStampFacts` | panel/panel-backend/internal/metrics/store.go:113-115 | the latest stamp stored for a node |
| `MetricsStore.RestartForgetsThrottle` | panel/panel-backend/internal/metrics/store.go:71-76 | a concrete run, with a restart in between, that stores two samples of one node in one second |
| `MetricsStore.UnixSeconds` | panel/panel-backend/internal/metrics/store.go:103-110 | stamps are whole seconds, rounded down |
| `MetricsStore.RecordStoredIff` | panel/panel-backend/internal/metrics/store.go:102-136 | an insertion that succeeds appends exactly the reported sample if and only if the node has no last write or it is at least 25 seconds ago |
| `MetricsStore.UnhurriedRecordsStored` | panel/panel-backend/internal/metrics/store.go:102-136 | records of one node at least 25 seconds apart, interleaved with any others like them, are all stored, in order, exactly as reported |
| `MetricsQuery.RawRowsFacts` | panel/panel-backend/internal/metrics/store.go:148-156 | a raw query answers exactly the rows of the window, with multiplicity, in time order |
| `MetricsQuery.RawWindowBound` | panel/panel-backend/internal/metrics/store.go:102-156 | rows of one process lifetime: a window of at most an hour has at most 145 of them, so no limit from 145 on cuts it |
| `MetricsQuery.BucketedBound` | panel/panel-backend/internal/metrics/store.go:158-191 | every window over an hour yields at most 311 rows, truncation and unaligned edges included, so no limit from 311 on cuts it |
| `MetricsQuery.BucketWidthExact` | panel/panel-backend/internal/metrics/store.go:158-163 | the width is the window in whole seconds divided by 300, rounded down, but at least 30 |
| `MetricsQuery.BucketedAtLeast` | panel/panel-backend/internal/metrics/store.go:158-191 | a window of at least 9000 seconds with a sample in every stretch of a bucket width yields at least 299 rows |
| `MetricsQuery.QueryIsCut` | panel/panel-backend/internal/metrics/store.go:140-191 | the answer is the raw rows up to an hour and the bucket rows above, cut to the limit, 1000 when none is given, and complete below it |
| `MetricsQuery.WindowInWidths` | panel/panel-backend/internal/metrics/store.go:160-163 | 310 bucket widths cover the window |
| `MetricsQuery.KeysFacts` | panel/panel-backend/internal/metrics/store.go:186 | the groups are strictly increasing and are exactly the buckets holding a row |
| `MetricsQuery.SummariesStamps` | panel/panel-backend/internal/metrics/store.go:169-187 | stamps are strictly increasing multiples of the width, one row per bucket that holds a sample |
| `MetricsQuery.SummaryRow` | panel/panel-backend/internal/metrics/store.go:167-187 | a row stands for exactly the window's samples of its bucket: float columns within 0.005 of the mean, integer columns its truncation, running if and only if some sample was |
| `MetricsQuery.SummaryRowCovers` | panel/panel-backend/internal/metrics/store.go:165-191 | from 1970 on, every sample lies within the bucket width after the stamp of its row |
| `MetricsQuery.SingleSampleReported` | panel/panel-backend/internal/metrics/store.go:170-183 | the row of a bucket with one sample is that sample field by field, whole numbers exactly, floats to two digits |
| `MetricsQuery.BucketsConserve` | panel/panel-backend/internal/metrics/store.go:184-186 | every column, the row count included, sums over the buckets to its total over the rows |
| `MetricsQuery.CountIsLength` | panel/panel-backend/internal/metrics/store.go:184-186 | the count column totals the number of rows |
| `MetricsQuery.MeansConserveTotal` | panel/panel-backend/internal/metrics/store.go:170-183 | count-weighted, the unrounded means sum to the raw total |
| `MetricsQuery.MeanBetween` | panel/panel-backend/internal/metrics/store.go:170-183 | a mean lies between any bounds of its bucket's values |
| `MetricsQuery.TruncationLoss` | panel/panel-backend/internal/metrics/store.go:173-183 | truncated means under-report a non-negative total, by less than the row count |
| `XrayManager.Manager.ParseAPIAddr` | node/internal/xray/manager.go:327-341 | the backward scan splits at the last colon, with the defaults where there is none or no number |
| `XrayManager.SplitJoined` | node/internal/xray/manager.go:327-341 | any host, colons included, and any port survive joining and splitting |
| `XrayManager.SplitDefaults` | node/internal/xray/manager.go:327-341 | without a colon the address is 127.0.0.1:10085, with a port that is no number the port is 10085 |
| `XrayManager.Manager.DropApi` | node/internal/xray/manager.go:286-320 | the append loop keeps exactly the items that do not carry "api" under the key, in order |
| `XrayManager.Manager.InjectStatsAPI` | node/internal/xray/manager.go:250-324 | the step-by-step map updates amount to the injection at the parsed address |
| `XrayManager.Manager.ApplyConfig` | node/internal/xray/manager.go:147-169 | the file changes exactly when the write is reached and succeeds, and then holds the injection; otherwise it is kept |
| `XrayManager.InjectionOverwrites` | node/internal/xray/manager.go:250-324 | injecting twice, even with different addresses, is injecting the second time only; with one address this is idempotence on every JSON object |
| `XrayManager.InjectionKeepsTheRest` | node/internal/xray/manager.go:250-324 | one api inbound and one api rule, both first; all other inbounds, rules and settings kept in order |
| `XrayManager.InjectionInstalls` | node/internal/xray/manager.go:250-324 | every JSON object has the whole stats API in place after injection |
| `XrayManager.InjectedSections` | node/internal/xray/manager.go:250-284 | the literal api and stats sections |
| `XrayManager.InjectedPolicyPlainly` | node/internal/xray/manager.go:250-284 | the four system statistics are on and the other policy settings kept |
| `XrayManager.InjectedInboundsPlainly` | node/internal/xray/manager.go:286-303 | the literal API inbound first, behind it exactly the inbounds not tagged "api" |
| `XrayManager.InjectedRoutingPlainly` | node/internal/xray/manager.go:305-324 | the literal API rule first, behind it exactly the rules that do not lead to "api", other routing settings kept |
| `XrayManager.FixpointIff` | node/internal/xray/manager.go:250-324 | a configuration is unchanged by injection if and only if it already has every injected piece in place |
| `XrayManager.DefaultIsFixpoint` | node/internal/xray/manager.go:201-324 | the default configuration is a fixpoint |
| `Decimal.ScanPrint` | node/internal/xray/manager.go:335 | scanning a printed number gives it back |
| `Decimal.ScanStops` | node/internal/xray/manager.go:327-341 | a number is read up to the first other character |
| `Decimal.ScanSignedDigits` | node/internal/xray/manager.go:327-341 | a leading sign is read |
| `Inbounds.Validated` | panel/panel-backend/internal/inbound/model.go:112-131 | accepts exactly inbounds with remark, port in 1..65535, known protocol and settings, and changes nothing but a missing tag |
| `Inbounds.ToXrayInbound` | panel/panel-backend/internal/inbound/model.go:73-109 | the object filled step by step is the specified one |
| `Inbounds.XrayInboundKeepsFields` | panel/panel-backend/internal/inbound/model.go:79-106 | the optional sections never disturb listen, port, protocol and tag |
| `Inbounds.XraySections` | panel/panel-backend/internal/inbound/model.go:73-109 | "settings" is there if and only if its text decodes, "streamSettings" and "sniffing" if and only if theirs moreover is neither empty nor "{}", each with the decoded value, and no other key beside the four fixed ones |
| `Inbounds.ListForNode` | panel/panel-backend/internal/inbound/repository.go:60-81 | the nested loops with break and continue select as specified |
| `Inbounds.ForNodeFacts` | panel/panel-backend/internal/inbound/repository.go:51-81 | a node gets exactly the live enabled inbounds that name it or name no node, in creation order, with distinct tags |
| `Inbounds.Service.CreateInbound` | panel/panel-backend/internal/inbound/service.go:38-59 | changes the table as specified, notifies exactly on success, reports the first failing check |
| `Inbounds.Service.UpdateInbound` | panel/panel-backend/internal/web/app.go:861-886 | as above, through the handler that looks the row up and keeps its id |
| `Inbounds.Service.DeleteInbound` | panel/panel-backend/internal/inbound/service.go:85-93 | marks a live row deleted, and succeeds and notifies also when there is none |
| `Inbounds.Service.ToggleInbound` | panel/panel-backend/internal/inbound/service.go:96-113 | flips the flag of a live row, fails without one |
| `Inbounds.Service.BuildXrayConfig` | panel/panel-backend/internal/inbound/service.go:117-185 | the append loop builds the specified configuration from the listed inbounds |
| `Inbounds.BuiltSections` | panel/panel-backend/internal/inbound/service.go:117-185 | the literal log and outbounds (freedom as direct first, blackhole as blocked) and the seven sections of a built configuration |
| `Inbounds.CreateAcceptedIff` | panel/panel-backend/internal/inbound/service.go:38-59 | a valid inbound is accepted if and only if no row, deleted ones included, carries its tag |
| `Inbounds.RefusalKinds` | panel/panel-backend/internal/inbound/service.go:38-59 | a valid inbound is refused as a taken tag if and only if a live row carries it, otherwise by the database |
| `Inbounds.UpdateAnswer` | panel/panel-backend/internal/inbound/service.go:62-82 | updating a live row is accepted if and only if no other row carries the tag, refused as taken if and only if another live one does, and leaves the given inbound in its place under its id |
| `Inbounds.RunKeepsInv` | panel/panel-backend/internal/inbound/service.go:38-113 | tags stay pairwise distinct and ids ascending over every run of operations |
| `Inbounds.RetiredForEver` | panel/panel-backend/internal/inbound/service.go:38-113 | the tag of a deleted inbound can never be used again, neither by creating nor by updating |
| `Inbounds.InjectedAlikeIff` | node/internal/xray/manager.go:250-324 | two tables give a node the same file if and only if it runs the same inbounds under both, rows with the reserved tag aside |
| `Inbounds.DeletedNeverServed` | panel/panel-backend/internal/inbound/repository.go:51-86 | a deleted inbound is never given to any node again, over every run |
| `Inbounds.ToggleUndone` | panel/panel-backend/internal/inbound/service.go:96-113 | toggling twice restores the table |
| `Inbounds.InjectedInboundsOfBuild` | node/internal/xray/manager.go:286-298 | after injection a node has the stats API and then its inbounds that do not use the reserved tag |
| `Inbounds.DeployedItem` | panel/panel-backend/internal/inbound/service.go:117-185 | item by item, a node runs the fields and sections of the inbounds listed for it, reserved tag aside |
| `Inbounds.EndToEndTags` | panel/panel-backend/internal/inbound/service.go:38-185 | after any operations, the injected configuration of any node has distinct tags, "api" first and only there |
| `Inbounds.BuildIsFixpointIff` | panel/panel-backend/internal/inbound/service.go:117-185 | injection leaves the built configuration alone if and only if the API address is the default one and no inbound of the node is tagged "api" |
| `ConfigPush.App.PushAll` | panel/panel-backend/internal/web/app.go:919-948 | the loop over the listed nodes queues as specified; the count is the number of nodes reached |
| `ConfigPush.PushedQueues` | panel/panel-backend/internal/web/app.go:159-179 | a pass queues exactly one configuration, the one built for that node, for every node it reaches, and none for others |
| `ConfigPush.Convergence` | panel/panel-backend/internal/web/app.go:159-179 | in every run, for a node the last effective change reached and whose stream stayed up: the last queued configuration is the one built from the table, and a drained queue means the file is its injection |
| `ConfigPush.DrainReaches` | node/internal/agent/agent.go:331-339 | draining the queue with every application succeeding is possible and ends with the injection of the current configuration in the file |
| `ConfigPush.ConvergedFileItem` | node/internal/agent/agent.go:331-339 | item i behind the API inbound in the file of a converged node has tag, port, protocol, settings and the decodable sections of the i-th deployed inbound |
| `ConfigPush.FileCurrentIff` | panel/panel-backend/internal/web/app.go:159-179 | in every run a node's file is the injection of the configuration of the table at the last pass it applied, and is up to date if and only if the node runs the same inbounds under that table and the present one |
| `ConfigPush.ReconnectKeepsStaleFile` | panel/panel-backend/internal/node/grpc_server.go:187-207 | connecting pushes nothing: after any run, a node that connects is up to date if and only if its inbounds are those of the table at the last pass it applied, whatever changed while it was away |
| `ConfigPush.StaleFileReached` | panel/panel-backend/internal/web/app.go:159-179 | a concrete run, for every inbound created while its node is away, that ends with the node connected, its file out of date and nothing queued |
| `NodeService.Service.NewService` | panel/panel-backend/internal/node/service.go:29-40 | a panel start marks every node offline and has no snapshots |
| `NodeService.Service.GetByReconnectSecret` | panel/panel-backend/internal/node/repository.go:42-48 | finds a live row with the secret if and only if there is one |
| `NodeService.Service.Register` | panel/panel-backend/internal/node/service.go:44-73 | creates an online row with a fresh secret, or fails and changes nothing |
| `NodeService.Service.Reconnect` | panel/panel-backend/internal/node/service.go:77-107 | the live holder of the secret keeps its id and gets the new secret and data; an unknown secret is refused |
| `NodeService.Service.MarkOnline` | panel/panel-backend/internal/node/service.go:110-117 | touches status and last-seen time of a live row only |
| `NodeService.Service.MarkOffline` | panel/panel-backend/internal/node/service.go:120-128 | sets a live row offline and drops its snapshot |
| `NodeService.Service.Delete` | panel/panel-backend/internal/node/service.go:184-194 | marks the row deleted and drops its snapshot |
| `NodeService.Service.List` | panel/panel-backend/internal/node/service.go:146-164 | the loop answers the specified listing |
| `NodeService.ListingFacts` | panel/panel-backend/internal/node/service.go:146-164 | every live node is listed exactly once with its snapshot, and nothing else |
| `NodeService.ListingOrder` | panel/panel-backend/internal/node/repository.go:51-57 | newer nodes are listed before older ones |
| `NodeService.NewSecretStaysDistinct` | panel/panel-backend/internal/node/service.go:77-97 | writing a row with an unused secret keeps live secrets pairwise distinct |
| `NodeStreams.GRPCServer.Connect` | panel/panel-backend/internal/node/grpc_server.go:107-265 | one connection run alone, from handshake to deferred cleanup: the ack sent and the whole change of rows, snapshots and streams, on every exit |
| `NodeStreams.GRPCServer.ServeMessages` | panel/panel-backend/internal/node/grpc_server.go:210-264 | the read loop handles every message in order |
| `NodeStreams.GRPCServer.SendToNode` | panel/panel-backend/internal/node/grpc_server.go:268-277 | a message goes to the stream registered now, and fails without one |
| `NodeStreams.ServedLeavesNothing` | panel/panel-backend/internal/node/grpc_server.go:187-265 | a connection left alone leaves its node offline without stream and snapshot and touches no other node |
| `NodeStreams.AcceptMeans` | panel/panel-backend/internal/node/grpc_server.go:107-186 | an accepting ack answers a handshake that passed the token check, carries the new secret and leaves the row of its node, of the live holder of the secret sent or a new one, online under it |
| `NodeStreams.RefusedChangesNothing` | panel/panel-backend/internal/node/grpc_server.go:107-175 | every other outcome leaves the panel as it was, and has one of the listed reasons |
| `NodeStreams.ServingShows` | panel/panel-backend/internal/node/grpc_server.go:210-264 | a served live node is shown online, seen last at its latest heartbeat or report, with the latest report as its snapshot |
| `NodeStreams.ServedRow` | panel/panel-backend/internal/node/grpc_server.go:187-265 | after a connection the row keeps what the handshake wrote and the time of the latest message, offline |
| `NodeAgent.Agent.New` | node/internal/agent/agent.go:60-77 | the environment's secret wins over the file's |
| `NodeAgent.Agent.HandshakeSecret` | node/internal/agent/agent.go:164-170 | the handshake carries the secret in memory, else the configured one |
| `NodeAgent.Agent.HandleAck` | node/internal/agent/agent.go:178-204 | only an accepting ack changes the agent; it stores node id, secret and positive intervals and writes the file |
| `NodeAgent.SurvivesRestart` | node/internal/agent/agent.go:60-77 | a written secret survives a restart if and only if the environment does not override it |
| `NodeRefinement.ConnectionRefinesConnect` | panel/panel-backend/internal/node/grpc_server.go:107-265 | the events of one connection, run without interference, are a possible run of the protocol and change the panel exactly as `Connect` does, for every outcome |
| `NodePresence.InitialPresence` | panel/panel-backend/internal/node/grpc_server.go:48-57 | the presence invariant holds at the first start |
| `NodePresence.RegistryStep` | panel/panel-backend/internal/node/grpc_server.go:187-207 | every event keeps: a registered stream belongs to a serving handler of that node, the latest registered one |
| `NodePresence.EntryChanges` | panel/panel-backend/internal/node/grpc_server.go:199-207 | an entry changes only by its own handler's cleanup, a newer stream of that node, or a panel restart |
| `NodePresence.WitnessedStep` | panel/panel-backend/internal/node/grpc_server.go:199-265 | every event keeps: an online node, and a snapshot, has a handler that accounts for it |
| `NodePresence.RunKeepsPresence` | panel/panel-backend/internal/node/grpc_server.go:171-265 | both invariants over every interleaving, panel restarts included |
| `NodePresence.FinishedIsOffline` | panel/panel-backend/internal/node/grpc_server.go:171-265 | once all handlers of a node have finished and no ack send failed, it is offline without stream and snapshot |
| `NodePresence.FailedAckLeavesOnline` | panel/panel-backend/internal/node/grpc_server.go:171-183 | after a failed ack send the node stays shown online through every run, whoever serves it, until a connection marks it offline, it is deleted or the panel restarts, each of which ends it |
| `NodeVisibility.DarkStepIff` | panel/panel-backend/internal/node/grpc_server.go:171-265 | one event, exactly: a connected node is shown offline afterwards if and only if the event marks it offline under a registered stream or registers its stream after such a mark, or it was so before and the event is no message, grant, stream end, deletion or panel restart |
| `NodeVisibility.ConnectedShownOfflineIff` | panel/panel-backend/internal/node/grpc_server.go:171-265 | over every interleaving from a first start: a connected node is shown offline if and only if such an event occurred and none has ended it since |
| `NodeVisibility.UnservedStepIff` | panel/panel-backend/internal/node/grpc_server.go:171-207 | one event, exactly: a node is shown online with every remaining handler of it returned on a failed ack send, if and only if the event is such a failed send and no other handler remained, or it was so before and the event is no grant, offline mark, deletion or panel restart |
| `NodeVisibility.ShownOnlineUnservedIff` | panel/panel-backend/internal/node/grpc_server.go:171-265 | over every interleaving from a first start: a node is shown online and served by nobody if and only if such a failed send occurred and none of those events has ended it since |
| `PushVisibility.PassReachesIff` | panel/panel-backend/internal/web/app.go:159-179 | a configuration pass reaches a node if and only if it has a stream, is not deleted, is not connected and shown offline, and nothing fails for it |
| `NodeScenarios.DarkReachedLate` | panel/panel-backend/internal/node/grpc_server.go:187-207 | a run from a first start: the newer stream is registered, then the older handler marks the node offline |
| `NodeScenarios.DarkReachedEarly` | panel/panel-backend/internal/node/grpc_server.go:187-207 | a run from a first start, the ordinary reconnect race: the older handler marks the node offline, then the newer stream is registered |
| `NodeScenarios.LeftOnlineReached` | panel/panel-backend/internal/node/grpc_server.go:171-183 | a run from a first start that leaves a node shown online and unserved, its only handler having returned on a failed ack send |
| `SecretRotation.StepKeepsInv` | panel/panel-backend/internal/node/service.go:44-107 | every event of agents and panel keeps the agreement of secrets |
| `SecretRotation.SecretAgreement` | node/internal/agent/agent.go:164-204 | over every interleaving, unless an ack or its persisting was lost: the agent has at most one node and stores its current secret, or the ack carrying it is under way |
| `SecretRotation.ReconnectSucceeds` | panel/panel-backend/internal/node/service.go:77-107 | without loss every reconnect of a live node is admitted under the same id, never as a new node |
| `SecretRotation.DeletedStaysOut` | panel/panel-backend/internal/node/service.go:77-107 | without loss the agent of a deleted node is refused at every further handshake and does not register anew |
| `SecretRotation.SecretsUsedOnce` | panel/panel-backend/internal/node/service.go:77-107 | live rows hold distinct secrets, no secret is accepted twice in a run, no accepted one is in a live row |
| `SecretRotation.DeletedForEver` | panel/panel-backend/internal/node/repository.go:42-62 | a deleted node id is never live or admitted again |
| `SecretLockout.HandshakeAnswer` | panel/panel-backend/internal/node/service.go:77-107 | the panel's answer to every handshake over the whole history: a secret is granted if and only if it was issued, has not been redeemed and its node is not deleted, and then as that very node |
| `SecretLockout.LockedOutForEver` | panel/panel-backend/internal/node/service.go:77-107 | an agent at rest that holds only dead secrets, in memory and in an existing file, stays so and never connects, whatever follows |
| `SecretLockout.NeverConnectsIff` | node/internal/agent/agent.go:60-204 | in every reachable state, an agent connects in no continuation at all if and only if it is locked out in that sense |
| `SecretLockout.LostAckIsFatal` | node/internal/agent/agent.go:164-204 | for every event that first loses something of an agent (an ack not sent, given up on or dying with a restart of either side, a grant that comes too late, a secret not yet written): the agent connects in no continuation if and only if its secret file exists; a late grant of a first handshake changes nothing |
| `SecretLockout.LockingEventsIff` | node/internal/agent/agent.go:60-204 | in every reachable state and for every event, first losses and later ones alike: an agent connects in no continuation afterwards if and only if that was so before, or it has a secret file and the event redeems the secret it stores without its waiting for that, loses the ack it waits for, restarts it from a file whose secret is dead or replaced, or leaves it at rest with a deleted node |
| `SecretLockout.WithoutFileRegistersAnew` | node/internal/agent/agent.go:60-77 | an agent without a secret file, restarted, is registered a second time as a new node |
| `SecretLockout.DeliveryStep` | panel/panel-backend/internal/node/service.go:77-107 | every event keeps: a secret whose ack is still to come is stored by no agent and sent by no handshake |
| `SecretLockout.CanConnect` | node/internal/agent/agent.go:108-204 | an agent that is not locked out has a continuation in which it connects |
| `NodeScenarios.LockedOutReached` | panel/panel-backend/internal/node/grpc_server.go:171-183 | a run from a first start, without any deletion, after which an agent with a secret file never connects again |

## Left out

- Prometheus exporter, logging, configuration loading, settings, the panel's WebSocket hub, the stats collectors of /proc and of Xray, templates, form building, formatters: wrappers with easy claims only.
- Canvas drawing, and the flat line substituted for a series of fewer than two samples (charts.js:127-134): `Lttb.PlottedSamples` starts from the series after that.
- Floating-point rounding in the chart, the averages and the query: exact reals; rounding to two digits is modelled as its own step.
- gRPC, TLS, HMAC, bcrypt and random generation: authentication and password checks are booleans, secrets, ids and tokens are fresh values.
- Database failures are modelled where an operation's result depends on them (`stored`, `inserted`, storage errors of unique indexes), not for plain reads and deletes.
- GORM column defaults: an inbound created with `enable` false is stored enabled, because the column default replaces zero values; the model stores what it is given. Ids and creation times sent by a client when creating are ignored too, and creation order stands for `created_at`.
- NodeService.Service.Reconnect: lookup and save are one step. Between them a deletion or a second reconnect with the same secret could come, and a save of a row deleted meanwhile could bring it back; the protocol's freshness and single-use theorems depend on the step being atomic.
- `Record` and `DeleteNode` of the metrics store are atomic, and so is an admin operation with its OnChange pass; requests interleaving inside one pass are not modelled.
- RECONNECT_SECRET is taken as unset in `NodeProtocol` (restarts read the file); `NodeAgent.SurvivesRestart` says what a set one does.
- The JSON text `null` makes `ApplyConfig` write to a nil map, modelled as the outcome `Panic`; the panel never sends it, because it only sends what `BuildXrayConfig` builds.
- SecretRotation.ReconnectSucceeds: assumes that the database takes the row; a refused write leaves the agent with its old, still valid secret.
- `Persist` in `NodeProtocol` writes the secret file in one step. The program truncates it first, so a restart inside the write can leave it empty, and the agent then registers anew, or cut off, and the agent is then refused.
- Xray process supervision (start, stop, restart and their goroutine): `XrayManager.Manager.ApplyConfig` ends with the file write.
- JSON text: columns and pushes carry what the text decodes to, so encoding and decoding between panel and node is the identity here; `allocate` is stored by the source and never used.
- `Decimal.Scan` reads spaces, a sign and digits; other blanks, underscores, and numbers beyond the integer width are not modelled.
- The agent's 5-second pause, heartbeat and status loops and its message queueing below the stream: `NodeProtocol` lets any step happen at any time. The panel's `Disconnect` message is a disconnect like any other.
- `Duration` saturation for windows of more than 292 years in `MetricsQuery.Query`.
- MetricsQuery.BucketedAtLeast: speaks of times from 1970 on. The division of the stamps truncates, so the bucket around the epoch is twice as wide.
- `parseRange`, HTTP handlers, cookies and middleware, except the lookup in the inbound update handler.
- `renderNodeList` without its container element does nothing; the empty-list notice is not modelled.
