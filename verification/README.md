# Beacle, verified

Beacle is a fleet panel: a backend on the user's computer and one agent per VPS. This project models
the protocols and state machines between them in Dafny and proves what their comments claim, over every
run or every input. Where a claim is false of the code, the code is modelled as it is, an input that
breaks the claim is exhibited, and the exact condition under which it holds is proved.

| file | models |
|---|---|
| `Base`, `Text`, `Samples` | wrappers and sorting, Go's `strings` functions, samples and their clock |
| `History`, `HistoryStore` | the backend's history: one sample a minute |
| `OfflineBuffer`, `Handover`, `Provenance` | the agent's sample file, its handover through sessions to the history, and where each sample stems from |
| `CollectGate` | the single-flight cache, any number of callers interleaved |
| `DiskForecast` | cleanup-aware least squares and its extrapolation |
| `Transport` | the trial switch from Tailscale to WireGuard |
| `Caddyfile`, `CaddyQuotes` | the block parser and raw block replacement, and braces inside quotes |
| `UptimeLog` | the panel's downtime as the complement of its runs |
| `Upload` | chunked uploads under loss, duplication and reordering |
| `Alerts`, `HiddenAlerts`, `Certificates`, `Pressure`, `PluginAlerts`, `OfflineSweep` | the alert index beside its store, flags without a row, plugin metrics, certificate levels, sustained load, the offline sweep |
| `Watchdog`, `Election` | peer notices while the panel is away, and who may send them |
| `CronFields`, `CronLines`, `Crontab` | what a cron field may be, reading and writing a line, editing the file |
| `TunnelPool` | WireGuard tunnel addresses |

Modelling conventions. Times are integers, in nanoseconds since 1970; percentages are reals, so rounding of
floats is not modelled. A region held under a mutex is one atomic step, and one call reads the clock once
unless the difference matters (the offline sweep and the session loop read it twice). `sort.Slice` is any
ordered permutation. Files are sequences of records; the text formats that matter (Caddyfile, crontab) are
sequences of characters. Answers of the outside world (probes, delivered webhooks, random ids and keys, the
`crontab` command) are inputs and may be anything. Code that changes fields or loops is a class or a method,
proved against a function or relation; the runs are then over those functions and relations.

Where the code does less than its documentation says:

- A buffered sample is dropped once its frame is queued, not once it is delivered; a session ending then loses
  it (`Handover.QueuedIsNotDelivered`). What is conserved is stated by `Handover.Conservation`.
- A sample recorded in the first minute of 1970 can share its minute with one from the minute before
  (`HistoryLog.EpochClash`; `HistoryLog.OneSamplePerMinute` gives the exact condition over runs).
- A switch to WireGuard between dialling over Tailscale and starting the handshake is confirmed by an answer
  that never used the tunnel (`Transport.ConfirmedWithoutTunnel`; exactly when, `Transport.OnlyTheTunnelConfirms`).
- A switch whose token names the Tailscale URL itself leaves nothing but the tunnel, with no fallback and no trial
  (`Transport.StepTunnelOnly`), and so does a join, which gives up the old URL (`Transport.JoinGivesUpHome`). After
  a join the URL a later trial expires to is an address inside the first tunnel, and no way back
  (`Transport.JoinedHomeIsNoWayBack`).
- Braces inside quotes are counted as block braces, though the parser is said to look for unquoted ones
  (`CaddyQuotes.QuotedBraceSwallows`), and a header is cut at the first brace even if that is quoted
  (`CaddyQuotes.QuotedHeaderMisread`); exactly when either matters is `CaddyQuotes.QuotesExactly`.
- A block written on one line nets to no braces, so it is skipped with the stray directives and cannot be edited
  as a block (`Caddyfile.OneLineBlockSkipped`; `Caddyfile.BlocksPlaced` has every block end on a later line).
- A part file left by another upload can be completed into a mixture; `Upload.SoundExactlyUnlessSpoiled` says
  exactly when.
- Dismissing an alert leaves its flag, so the condition stays silent until it clears; and once 500 alerts are
  open the next one silently takes away the row of the oldest, which stays flagged and is not reported again
  (`HiddenAlerts.TrimHidesOldest`; exactly when, `HiddenAlerts.StepShown` and `HiddenAlerts.HiddenExactly`).
- An override less than five points above a metric's clear level gets less than the five points of hysteresis
  that are documented (`Pressure.FivePoints`).
- The domains last listed are not kept across a restart, so adopted certificate alerts of vanished domains
  stay (`Certificates.ExactUnlessForgotten`).
- With the tailnet lost and fewer than two servers left to watch, no reachability alert is ever raised again
  (`OfflineSweep.LoneServerStaysSilent`; a run, `OfflineSweep.DeletedServerSilencesTheOther`).
- A secondary watcher does not take over when the primary it names goes down: the flag that would permit it to send
  can only be set by a permitted send (`Watchdog.SecondaryIsSilent`). Its gate is open only if it had announced that
  server before it was told that it is the primary (`Watchdog.SecondarySpeaks`).
- A plugin metric whose warning level is overridden above its critical one loses hysteresis, down to none: its alert
  clears at the first reading below the critical level (`PluginAlerts.Flaps`; exactly when,
  `PluginAlerts.HysteresisExactly` and `NoHysteresisExactly`). A metric that goes away keeps its clock, so it is not
  held for the sustained time when it returns (`PluginAlerts.BackAfterGap`).
- A lone candidate pinned as secondary leaves the primary seat empty (`Election.SeatsFilled`).
- Cron validation trims the parts of a list, so it accepts fields with white space inside; such an entry is
  written as a line that reads as another entry (`CronLines.BlankSpills`, `CronLines.RoundTrip`).

## Model

| member | source | states |
|---|---|---|
| `HistoryStore.History.RecordSample` | backend/history.go:110-135 | stores the sample unless the last one is under a minute older, drops the oldest past the cap, says whether it stored, and touches no other server |
| `HistoryLog.RecordStores` | backend/history.go:110-122 | a sample a minute or more after the last one is stored as it is behind those held, in their order, of which only the oldest goes at the cap; any other changes nothing |
| `HistoryStore.History.Backfill` | backend/history.go:145-199 | the new series is a time-ordered arrangement of the held samples and the first sample of each new in-window minute, less the oldest over the cap; returns how many minutes were new |
| `HistoryStore.History.Merge` | backend/history.go:145-199 | the same for the one series, with `lastAt` only ever raised |
| `HistoryStore.History.SortAndCap` | backend/history.go:185-189 | what is kept and what is dropped together are an ordered permutation, and exactly the excess is dropped from the old end |
| `HistoryStore.History.FillGaps` | backend/history.go:153-180 | the held samples followed by the first sample of each free, in-window minute |
| `HistoryStore.History.TrimAll` | backend/history.go:236-254 | every server keeps exactly its samples inside the retention, in order |
| `HistoryStore.History.Query` | backend/history.go:203-219 | exactly the samples inside the window, each bound optional, in order with distinct minutes |
| `HistoryStore.History.Forget` | backend/history.go:258-265 | the server is as if never seen, and no other changes |
| `HistoryLog.RecordKeeps` | backend/history.go:110-135 | recording keeps the series ordered, minute-distinct, capped and not past `lastAt` if and only if it does not put a sample of the first minute of 1970 beside one of the minute before |
| `HistoryLog.RecordKeepsAtCap` | backend/history.go:114-122 | the same at the cap, where the oldest sample has made room |
| `HistoryLog.EpochClash` | backend/history.go:110-135 | two samples 61 seconds apart that are both stored under one minute |
| `HistoryLog.Admitted` | backend/history.go:153-180 | the held samples stay in front, the occupied minutes grow by exactly the in-window minutes of the batch, and none is taken twice |
| `HistoryLog.FirstIsAdmitted` | backend/history.go:164-180 | the sample admitted for a new minute is the first one offered for it |
| `HistoryLog.OfferExactly` | backend/history.go:153-172 | a lone offer is taken exactly if timed, at most two weeks old and at most an hour ahead, and outlives a trim at that instant unless two weeks old to the nanosecond |
| `HistoryLog.BackfillKeeps` | backend/history.go:145-199 | a backfill keeps the invariant, and dropped and held minutes together are the old ones plus the in-window new ones |
| `HistoryLog.TrimKeeps` | backend/history.go:236-254 | trimming keeps the invariant and exactly the samples inside the retention |
| `HistoryLog.OneSamplePerMinute` | backend/history.go:110-254 | over every interleaving of record, backfill and trim, a series stays ordered, minute-distinct, capped and never past `lastAt` if and only if no step records a sample of the first minute of 1970 beside one of the minute before |
| `HistoryLog.AlwaysKeptSinceEpoch` | backend/history.go:110-254 | so it always does where no sample of the minute before 1970 is offered |
| `HistoryLog.HandoverMinutes` | backend/history.go:137-199 | while they fit, the minutes held after any number of backfills are the old ones plus every minute offered in time |
| `HistoryLog.ChunkingIsIrrelevant` | backend/history.go:137-199 | two ways of cutting, repeating and ordering the same samples into chunks leave the same minutes occupied |
| `Samples.MinuteApart` | backend/history.go:110-174 | instants a minute or more apart share a minute key exactly across the epoch |
| `OfflineBuffers.OfflineBuffer.Load` | agent/offline_buffer.go:82-117 | an ordered permutation of the lines that carry a time |
| `OfflineBuffers.OfflineBuffer.Append` | agent/offline_buffer.go:59-79 | the line is added; past the cap only the oldest go, and they are the ones reported |
| `OfflineBuffers.OfflineBuffer.DropUpTo` | agent/offline_buffer.go:122-140 | exactly what is newer than the cutoff stays, oldest first |
| `OfflineBuffers.AppendedMembers` | agent/offline_buffer.go:59-79 | an append loses nothing but what it reports, and that is never newer than what stays |
| `OfflineBuffers.DroppedMembers` | agent/offline_buffer.go:122-140 | membership after a drop, both ways |
| `OfflineBuffers.TimedCounts` | agent/offline_buffer.go:82-117 | lines are left out only for having no time, and kept as often as they stand in the file |
| `OfflineBuffers.AppendedCut` | agent/offline_buffer.go:59-79 | an append cuts the file only over two weeks of minutes, and then to exactly that |
| `OfflineBuffers.ChunkSamples` | agent/offline_buffer.go:199-215 | the chunks in order are the samples; all are full but perhaps the last; none is empty; a size that is not positive means the default |
| `OfflineBuffers.SyncEngine.SendBackfill` | agent/sync_engine.go:328-382 | a frame is queued at the end, or nothing changes: exactly when the session has ended or its queue is full |
| `OfflineBuffers.FlushOffline` | agent/ws_client.go:205-226 | undisturbed, the frames queued are the first chunks of the file, as many as the queue takes, and exactly what is newer than the last of them stays on disk |
| `Handover.HandedGrows` | agent/ws_client.go:205-226 | no step of the protocol takes a minute out of the accounted places |
| `Handover.ChunkSent` | agent/ws_client.go:211-222 | when a chunk leaves, every sample on disk up to its last time is accounted for, even where equal times straddle the cut |
| `Handover.StepInv` | agent/ws_client.go:205-226 | every step keeps the accounting and what each overlapping flush may still drop |
| `Handover.Conservation` | agent/ws_client.go:205-226 | in every run every minute ever buffered is on disk, queued, in the history, or explicitly capped, lost with a session, out of window or aged out |
| `Handover.LedgerExactly` | agent/ws_client.go:205-226 | a minute counts as capped, lost, refused or aged out exactly if some event carried it off: a frame queued into a dead session, lost on the way or with its session, a sample out of window or over a cap |
| `Handover.DrainedMeansRecorded` | agent/ws_client.go:202-226 | with disk and queues drained, the history holds every buffered minute that no event carried off |
| `Provenance.AgentInventsNothing` | agent/ws_client.go:205-226 | in every run whatever the file, the flushes and the queues hold was sampled by the agent, with the same readings |
| `Provenance.ServerInventsNothing` | backend/history.go:110-199 | in every run each sample in the history was there at the start, sampled by the agent, or told to the backend again or by its own recording, with the same readings |
| `Provenance.BufferedExactly` | agent/offline_buffer.go:59-79 | the minutes counted as buffered are exactly those the agent sampled in |
| `Handover.QueuedIsNotDelivered` | agent/sync_engine.go:349-382 | a run in which a sample is buffered, flushed and dropped, and its session then ends: it is nowhere |
| `Handover.FrameLostOnTheWay` | agent/ws_client.go:205-226 | a run in which the same happens by the loss of the frame |
| `Handover.QueuedIntoDeadSession` | agent/sync_engine.go:364-381 | a run in which it happens because the session ends between the two checks of a send |
| `CollectGate.StepInv` | agent/collect_gate.go:42-84 | each region under the mutex, each close and each wake-up keeps the invariant |
| `CollectGate.SingleFlight` | agent/collect_gate.go:42-84 | in every interleaving: no two collections overlap; a channel is closed once, by its maker; a waiter's channel is closed or owed; whoever returned has a finished collection's value, a waiter that of the one it joined or a later one |
| `CollectGate.Terminates` | agent/collect_gate.go:42-84 | N callers are through in at most 5N steps under every schedule |
| `CollectGate.NeverStuck` | agent/collect_gate.go:42-84 | while some caller has not returned, some step is possible |
| `CollectGate.EnterAfterPublish` | agent/collect_gate.go:42-84 | over runs: a caller entering less than the window after the last publication has that very result at once and makes no channel; any other waits for the collection under way, or begins one if there is none |
| `CollectGate.EnterBeforePublish` | agent/collect_gate.go:42-84 | before anything was published nobody is answered at once |
| `CollectGate.CollectionsApart` | agent/collect_gate.go:42-84 | a collection begun after a publication begins at least the window after it |
| `DiskForecast.ForecastFull` | backend/disk_forecast.go:35-95 | the loops compute the specified forecast of the readings since the last cleanup in the window |
| `DiskForecast.PointsSinceCleanup` | backend/disk_forecast.go:45-58 | the gathering loop, which starts over at each cleanup, against its specification |
| `DiskForecast.RecentGathers` | backend/disk_forecast.go:45-58 | the points gathered are the readings of the mount in the samples of the window that have one: one for each, in their order, and none left out |
| `DiskForecast.RecentExactly` | backend/disk_forecast.go:45-52 | as a set, if and only if |
| `DiskForecast.SumUp` | backend/disk_forecast.go:68-77 | the accumulation loop gives the five sums of the least-squares fit |
| `DiskForecast.FittedIsLongestCleanSuffix` | backend/disk_forecast.go:45-58 | the fitted points are the longest end of the window with no cleanup drop inside it |
| `DiskForecast.DenSign` | backend/disk_forecast.go:69-81 | the denominator is never negative, and positive once the first and last times differ (Cauchy-Schwarz) |
| `DiskForecast.DenominatorPositive` | backend/disk_forecast.go:62-82 | past the span check the division is safe |
| `DiskForecast.Chebyshev` | backend/disk_forecast.go:69-83 | rising times with never-rising readings have no positive slope (Chebyshev's sum inequality) |
| `DiskForecast.NeverRisingNeverForecast` | backend/disk_forecast.go:59-95 | never-rising readings give no forecast |
| `DiskForecast.FallingDiskNeverForecast` | backend/disk_forecast.go:35-95 | the same from the samples: a disk that never rises within the window is never forecast |
| `DiskForecast.LineForecast` | backend/disk_forecast.go:59-95 | through points on a line a forecast is the very nanosecond in which the line reaches 100, not before the last point and within the horizon |
| `DiskForecast.LineForecastExactly` | backend/disk_forecast.go:59-95 | through points on a line there is a forecast if and only if there are sixty or more over twelve hours or more, the line rises by half a per cent over them, the disk is not full and will be within thirty days |
| `DiskForecast.DurationFits` | backend/disk_forecast.go:35-93 | for time-ordered samples with readings that are not negative, the float converted to a duration is positive and fits 64 bits |
| `Transport.AgentConfig.ApplyJoin` | agent/transport.go:178-195 | succeeds exactly for a token with a panel address, and changes nothing otherwise; afterwards every dial goes through the new tunnel, there is no trial, no expiry changes anything, and the old credentials are gone |
| `Transport.JoinGivesUpHome` | agent/transport.go:176-195 | after a join the old home is still the current or fallback URL if and only if the token names it, and then only through the tunnel |
| `Transport.HomeOrigin` | agent/transport.go:178-247 | home is the first URL, or that of the last successful switch to Tailscale or join, and which of these |
| `Transport.JoinedHomeIsNoWayBack` | agent/transport.go:178-280 | a run of a join, a switch to another address and an expiry, which ends on Tailscale at an address only the first tunnel led to |
| `Transport.AgentConfig.ApplySwitchToWireGuard` | agent/transport.go:215-235 | the whole configuration after a switch; a fallback already held is kept |
| `Transport.AgentConfig.ApplySwitchToTailscale` | agent/transport.go:237-247 | the whole configuration after switching back, or nothing changed for a blank URL |
| `Transport.AgentConfig.ExpireTrial` | agent/transport.go:264-280 | the whole configuration after an expiry check |
| `Transport.AgentConfig.ApplyRegisterAck` | agent/reporter.go:143-165 | the whole configuration after an acknowledgement |
| `Transport.IdOrigin` | agent/reporter.go:143-165 | in every run the id is that of the last join, successful switch token or acknowledgement that named one, or the first |
| `Transport.TokenOrigin` | agent/reporter.go:143-165 | and the credential that of the last acknowledgement that named one, or blank if a join came since |
| `Transport.AckLeavesTheWay` | agent/reporter.go:143-165 | an acknowledgement leaves transport, tunnel, URL and fallback alone, and ends a trial exactly on WireGuard in a session counted as tunnelled |
| `Transport.StepTunnel` | agent/transport.go:178-280 | tunnel and transport are those of the last join or switch, and gone after an expired trial |
| `Transport.SwitchStartsTrial` | agent/transport.go:215-235 | a switch to WireGuard keeps home to fall back to for ten minutes, unless the token names home; an earlier fallback and its deadline stay |
| `Transport.StepInv` | agent/transport.go:178-280 | every switch, dial, handshake, acknowledgement, expiry and hang-up keeps the home URL and what a session may claim |
| `Transport.NeverStranded` | agent/transport.go:199-280 | in every run home (the last Tailscale or joined URL) is the current or the fallback URL, a deadline means WireGuard with that fallback, and an expiry that fires restores exactly home |
| `Transport.HomeIsTried` | agent/ws_client.go:257-330 | each round dials a Tailscale home outside the tunnel exactly off WireGuard or with an active fallback; else the trial ended between the two clock readings and the next expiry returns to home, or there is nothing but the tunnel and never will be by expiry; a joined home is dialled through its tunnel exactly while that tunnel and address are in use |
| `Transport.StepTunnelOnly` | agent/transport.go:215-247 | there is nothing but the tunnel exactly after a join or a switch whose token names home itself, until the next successful switch |
| `Transport.OnlyTheTunnelConfirms` | agent/reporter.go:143-165 | a trial ends on WireGuard only by a join or by an acknowledgement counted as tunnelled; that one came through a tunnel if and only if the agent was on WireGuard when it dialled |
| `Transport.ConfirmedWithoutTunnel` | agent/ws_client.go:332-381 | a run in which a session dialled over Tailscale confirms the tunnel |
| `Caddyfile.StripComments` | agent/caddyfile_parse.go:24-40 | the line up to its first unquoted # |
| `Caddyfile.QuotedByParity` | agent/caddyfile_parse.go:24-40 | a position is quoted exactly behind an odd number of unescaped quotes |
| `Caddyfile.ParseCaddyfile` | agent/caddyfile_parse.go:45-97 | the line loop computes the blocks of the specified line automaton |
| `Caddyfile.ReadLine` | agent/caddyfile_parse.go:56-68 | braces opened less braces closed, and the addresses, of the line without its comment |
| `Caddyfile.ReplaceBlock` | agent/caddyfile_parse.go:118-128 | the lines around the block joined with the trimmed text, or an error for lines out of range |
| `Caddyfile.TrimEndCuts` | agent/caddyfile_parse.go:125 | what is kept of the text is its beginning, what is cut off are line ends only, and none is left at the end |
| `Caddyfile.TextLinesKept` | agent/caddyfile_parse.go:118-128 | every line of the text up to its trailing line ends is written as it stands, the last one less its trailing carriage returns |
| `Caddyfile.BlocksPlaced` | agent/caddyfile_parse.go:45-97 | each block starts and ends at depth 0, after exactly the blocks before it; its address, body and raw text are its own lines |
| `Caddyfile.BlocksInOrder` | agent/caddyfile_parse.go:45-97 | blocks are disjoint and in file order |
| `Caddyfile.BlockFound` | agent/caddyfile_parse.go:58-97 | lines that open a block, stay inside it and close it at the last are found as that one block with the addresses of its header |
| `Caddyfile.AddressesReadBack` | agent/caddyfile_parse.go:103-113 | a header listing addresses reads back as those addresses in their order |
| `Caddyfile.NoneOpens` | agent/caddyfile_parse.go:58-77 | a file in which no line opens more braces than it closes has no blocks |
| `Caddyfile.OneLineBlockSkipped` | agent/caddyfile_parse.go:63-76 | a block written on one line is not seen |
| `Caddyfile.ParseConcat` | agent/caddyfile_parse.go:45-97 | text that returns to depth 0 and what follows it parse apart |
| `Caddyfile.ReplacementIsLocal` | agent/caddyfile_parse.go:118-128 | replacing a block by lines that return to depth 0 re-parses to the old blocks before it, the text's blocks, and the old blocks after it with only their lines shifted |
| `Caddyfile.EditIsLocal` | agent/caddyfile_parse.go:118-128 | for every text: the edited file parses to the old blocks before, the text's own, and the old blocks after with shifted lines, if and only if the text returns to depth 0 or leaves a brace open that nothing behind closes, with no block following |
| `Caddyfile.UnbalancedEdit` | agent/caddyfile_parse.go:45-97 | the same for text that leaves a brace open, before any tail |
| `Caddyfile.OwnRawIsIdentity` | agent/caddyfile_parse.go:118-128 | writing a block back as it was gives the same file if and only if its last line does not end in a carriage return |
| `CaddyQuotes.NetIsBare` | agent/caddyfile_parse.go:62-66 | a line changes the depth by its unquoted braces if and only if its quoted ones balance |
| `CaddyQuotes.QuotesExactly` | agent/caddyfile_parse.go:45-97 | down a file, the parser and one that counts and cuts at unquoted braces only stay at the same place if and only if at every line the counts agree, and the addresses too where a block opens, or neither opens a block, or both close it |
| `CaddyQuotes.AddressesAlike` | agent/caddyfile_parse.go:62-68 | the two read the same addresses off a line whose first brace is not quoted |
| `CaddyQuotes.TameQuotesAreHarmless` | agent/caddyfile_parse.go:45-97 | where every line's quoted braces balance and no opening line's first brace is quoted the blocks are those of the quote-aware parser |
| `CaddyQuotes.QuotedBraceSwallows` | agent/caddyfile_parse.go:62-82 | a file of two blocks in which a quoted brace leaves the parser with none |
| `CaddyQuotes.QuotedHeaderMisread` | agent/caddyfile_parse.go:62-68 | a balanced header with a quoted pair of braces, whose block gets an address that is not its own |
| `Text.SplitJoinExactly` | agent/caddyfile_parse.go:118-128 | splitting undoes joining if and only if there is a line and none holds the separator |
| `Text.JoinSplit` | agent/caddyfile_parse.go:118-128 | joining undoes splitting |
| `Text.TrimSpaceCuts` | agent/cron_linux.go:103-105 | trimming cuts white space off both ends, all of it, and nothing else |
| `UptimeLog.Log.DownFrom` | backend/uptime_log.go:125-164 | for well-formed runs: in order and disjoint, exactly the maximal run-free stretches clipped to the window that are longer than the tolerance |
| `UptimeLog.Log.Heartbeat` | backend/uptime_log.go:84-92 | the current run is extended to now, nothing else changes, and the runs stay well-formed exactly if the clock has not gone back behind its start |
| `UptimeLog.MergeRuns` | backend/uptime_log.go:130-142 | every run is inside a merged one; each merged one starts and ends with a run and hides no long gap; merged ones are more than the tolerance apart |
| `UptimeLog.LongGapsSurvive` | backend/uptime_log.go:132-142 | merging within the tolerance leaves exactly the same long gaps |
| `UptimeLog.Sweep` | backend/uptime_log.go:144-163 | in order, exactly the long gaps between merged runs |
| `Upload.FileManager.UploadChunk` | agent/files.go:322-389 | the destination, the part file and the answer after one chunk, refusals and offset conflicts included |
| `Upload.RefusedExactly` | agent/files.go:322-350 | a chunk is refused, with nothing touched, exactly if over a mebibyte, onto a directory, or onto a file without leave to overwrite |
| `Upload.ConflictTellsTheCount` | agent/files.go:351-372 | an offset other than 0 and the count held is answered with that count, and what is held stays |
| `Upload.AcceptedIsWritten` | agent/files.go:351-389 | an accepted chunk stands at its offset behind what was held; the count answered is what is held now; only a final one is installed |
| `Upload.UploadIntegrity` | agent/files.go:322-389 | for chunks of one source under any duplication, loss and reordering, once a first chunk has been accepted the part is absent or a prefix of the source and the destination its old content or the whole source |
| `Upload.NextIsAccepted` | agent/files.go:351-388 | the chunk at the reported count is accepted and the count strictly advances |
| `Upload.ResumeCompletes` | agent/files.go:322-389 | resuming at the reported count ends with the source in place |
| `Upload.SoundExactlyUnlessSpoiled` | agent/files.go:322-389 | no run can install anything but the source if and only if no foreign part at most as long as the source lies there |
| `Alerts.FlagsAreUnique` | backend/alerts.go:208-229 | the engine's flag strings tell any two conditions apart |
| `Alerts.FilterInPlace` | backend/store.go:653-671 | filtering the slice over its own storage keeps exactly the rows that do not match, in order, and returns the matching ones resolved |
| `Alerts.AlertEngine.constructor` | backend/alerts.go:129-147 | adopted rows: every open row of a kind still alerted on is kept and flagged, and index and store agree |
| `Alerts.AlertEngine.AdoptRows` | backend/alerts.go:138-146 | legacy rows are removed and the flags are exactly those of the rows left |
| `Alerts.AlertEngine.Purge` | backend/store.go:675-690 | exactly the unresolved rows stay, in order |
| `Alerts.PurgedInOrder` | backend/store.go:675-690 | purging keeps the order of the rows |
| `Alerts.AdoptedInOrder` | backend/alerts.go:138-146 | and so does adopting |
| `Alerts.AlertEngine.FireAlert` | backend/alerts.go:208-229 | flags and rows after raising, with the 500-row trim; nothing if already flagged |
| `Alerts.FireAdds` | backend/alerts.go:208-229 | a new condition becomes a flag and an open row of its severity at the end; rows go only from the front and over the cap |
| `Alerts.AlertEngine.ResolveAlertsFor` | backend/store.go:653-671 | the store after resolving one condition, and the rows handed back |
| `Alerts.AlertEngine.ClearAlert` | backend/alerts.go:264-275 | flags and rows after clearing; nothing if not flagged |
| `Alerts.ClearTakes` | backend/alerts.go:264-275 | clearing takes the flag and the open rows of one condition and nothing else |
| `Alerts.OthersInOrder` | backend/store.go:653-671 | the rows kept stand in their order, and with those handed back resolved they are all |
| `Alerts.AlertEngine.ClearReachable` | backend/alerts.go:281-290 | both reachability conditions are cleared whether flagged or not |
| `Alerts.AlertEngine.ResolveAlert` | backend/store.go:693-705 | the first row with the id goes, and whether there was one |
| `Alerts.StepAgrees` | backend/alerts.go:208-290 | every operation keeps each open row flagged and no two open rows about one condition |
| `Alerts.IndexAgreesWithStore` | backend/alerts.go:208-290 | the same over every run, dismissals and the trim included |
| `HiddenAlerts.StepHidden` | backend/alerts.go:208-290 | a flagged condition has no open row after a step exactly if it had none and is not cleared, or the step takes its row away: a dismissal of that row, or a new alert trimming it off a full store |
| `HiddenAlerts.StepShown` | backend/store.go:629-705 | every flagged condition keeps an open row through a step if and only if the alert is a repeat, the store has room or its oldest row is resolved; the dismissed row is resolved; no legacy row is open |
| `HiddenAlerts.ShownThroughout` | backend/alerts.go:208-290 | and through a run if and only if through each of its steps |
| `HiddenAlerts.HiddenExactly` | backend/alerts.go:208-290 | in every run a condition ends up flagged with no open row exactly if something hid it and nothing cleared it since, however often it was raised |
| `HiddenAlerts.ReportedAfterClear` | backend/alerts.go:208-275 | once cleared, the next raise gives it an open row again |
| `HiddenAlerts.TrimHidesOldest` | backend/store.go:633-638 | a run of 501 different alerts after which the first is flagged and has no row |
| `HiddenAlerts.AdoptedShown` | backend/alerts.go:129-147 | adopted rows start with every flagged condition shown |
| `Certificates.KeysAreUnique` | backend/alerts.go:452-486 | a certificate key names one server, domain and level |
| `Certificates.CertWatch.EvaluateCerts` | backend/alerts.go:457-497 | one evaluation refreshes the flags as specified, remembers the listed domains, touches no other server's, and keeps index and store agreeing |
| `Certificates.EvaluateListed` | backend/alerts.go:459-488 | after the site loop each listed domain is flagged at its last listed site's level only |
| `Certificates.LevelByDays` | backend/alerts.go:466-478 | expired from its end on, critical from three days before, a warning from fourteen, and no level earlier |
| `Certificates.SiteReported` | backend/alerts.go:466-488 | a newly reached level is a new open row, a warning only at the first level |
| `Certificates.ForgetDomains` | backend/alerts.go:489-495 | exactly the certificate flags of the vanished domains go |
| `Certificates.ExactUnlessForgotten` | backend/alerts.go:457-497 | an evaluation leaves exactly one flag per listed domain within 14 days of expiry, if and only if no flag was held for a domain neither remembered nor listed |
| `Certificates.CertificatesRefinePureFunction` | backend/alerts.go:457-497 | in every run that did not start with adopted certificate rows each evaluation leaves exactly the flags its sites call for |
| `Pressure.Effective` | shared/thresholds.go:50-84 | an override becomes the firing level; a clear level not below it is put five points under it, or at zero for an override under five; the clear level is always strictly below and not negative |
| `Pressure.FivePoints` | shared/thresholds.go:46-84 | the documented five points of hysteresis are there if and only if the override is not under five and not less than five above the metric's own clear level |
| `Pressure.EffectiveThresholds` | shared/thresholds.go:50-84 | for every override each metric's clear level is strictly below its firing level |
| `Pressure.PressureWatch.CheckSustained` | backend/alerts.go:297-309 | whether the metric has been over since at least the sustained time, and the clock kept or dropped |
| `Pressure.PressureWatch.EvaluateMetric` | backend/alerts.go:312-331 | one reading moves one gauge as specified and leaves every other gauge and flag alone |
| `Pressure.AlertNeedsSustained` | backend/alerts.go:297-331 | every alert ends an unbroken run of readings at or above the firing level that spans the sustained time |
| `Pressure.SustainedExactly` | backend/alerts.go:297-331 | a reading is sustained if and only if the first of the unbroken run over the level that it ends is long enough ago; the alert is then up, and raised now if it was not |
| `Pressure.UpExactly` | backend/alerts.go:312-331 | an alert is up after a reading if and only if the reading is sustained, or it was up and the reading is not below the clear level |
| `Pressure.NoFlapping` | backend/alerts.go:312-331 | between an alert being up and a later time it is down lies a reading below the clear level |
| `Pressure.AlertsAreSeparated` | backend/alerts.go:312-331 | two alerts of one gauge are separated by a reading below the clear level |
| `PluginAlerts.HysteresisExactly` | backend/alerts.go:399-430 | whatever clears lies five per cent under every level that fires, if and only if the critical level is not below the warning one |
| `PluginAlerts.NoHysteresisExactly` | backend/alerts.go:399-430 | any reading below the critical level clears its alert, if and only if that level is at most 95 per cent of the warning one |
| `PluginAlerts.OneLevel` | backend/alerts.go:414-430 | the two alerts of a metric are never both up, if not at the start |
| `PluginAlerts.SustainedExactly` | backend/alerts.go:393-431 | a reading over a level is sustained if and only if the first one since the metric was last seen under both is long enough ago, even if it was gone in between |
| `PluginAlerts.UpExactly` | backend/alerts.go:393-443 | which alerts of a metric are up after each event: the level of a sustained reading alone, none after a clearing one or once the metric is gone, else those that were |
| `PluginAlerts.OverrideIsWarn` | backend/alerts.go:399-409 | an override replaces the warning level only, if positive |
| `PluginAlerts.ReportedRow` | backend/alerts.go:414-424 | a newly reported level is a new open row, critical exactly for the critical level |
| `PluginAlerts.NoFlapping` | backend/alerts.go:414-442 | an alert that is no longer up was ended by a clearing reading or by the metric going |
| `PluginAlerts.Flaps` | backend/alerts.go:410-430 | for any reading below the critical level, however close, a run in which it clears the alert and the alert comes back |
| `PluginAlerts.BackAfterGap` | backend/alerts.go:414-442 | a run in which a metric over a level for an instant goes and is reported at once when it comes back over it |
| `PluginAlerts.LookupMetric` | shared/plugin/manifest.go:155-169 | the definition of the name itself, or of the longest wildcard that matches, whatever order the map yields; none exactly if nothing matches |
| `PluginAlerts.PluginWatch.EvaluateValue` | backend/alerts.go:394-431 | one gauge observes the reading, every other flag and clock is left alone, and index and store keep agreeing |
| `PluginAlerts.PluginWatch.DropVanished` | backend/alerts.go:432-442 | exactly the flags of metrics no longer reported go |
| `PluginAlerts.EvaluatePlugins` | backend/alerts.go:393-443 | every metric of the server goes through its own step, in whatever order the map yields them, and no other server's is touched |
| `OfflineSweep.Sweeper.HoldAlerts` | backend/alerts.go:522-526 | the hold deadline after a hold |
| `OfflineSweep.HoldExactly` | backend/alerts.go:522-526 | a hold lasts 45 seconds from now, or as long as it would have anyway, and changes nothing else |
| `OfflineSweep.Sweeper.LineUp` | backend/localnet.go:73-102 | a good answer is reused while fresh, a bad one never; the line's fields after |
| `OfflineSweep.LineAnswers` | backend/localnet.go:73-102 | up exactly if a good answer is under fifteen seconds old or the probe succeeds; the last answer is remembered |
| `OfflineSweep.Sweeper.SweepOffline` | backend/alerts.go:551-714 | the whole sweep state and every server's status after one pass |
| `OfflineSweep.StatusAfter` | backend/alerts.go:610-714 | a server's status follows its socket unless a restart explains the silence, and a judged outage is told apart by the host probe |
| `OfflineSweep.CountsMean` | backend/alerts.go:564-580 | the counts say exactly whether a watched server is missing and whether any is there |
| `OfflineSweep.JudgesExactly` | backend/alerts.go:551-608 | a sweep may raise if and only if it is past the hold, the line was up and answers if anything is missing, the tailnet is not lost and not all of two or more servers are missing |
| `OfflineSweep.JudgedExactly` | backend/alerts.go:610-714 | a server is judged out if and only if watched, not connected, not restarting and silent for more than 45 seconds |
| `OfflineSweep.RaisedRow` | backend/alerts.go:688-712 | what is raised is a critical open row of the kind its host calls for |
| `OfflineSweep.RaiseNeedsAllClear` | backend/alerts.go:551-714 | a raise needs a sweep past the hold, the line known up and the tailnet not lost |
| `OfflineSweep.SweepEach` | backend/alerts.go:610-714 | of servers with distinct ids, after a sweep a connected one has neither flag, one judged out exactly the one its host calls for, and any other those it had |
| `OfflineSweep.RaisesExactly` | backend/alerts.go:551-714 | a sweep raises a reachability alert if and only if it gets past the hold with line and tailnet up and some server is judged out whose flag is not up |
| `OfflineSweep.HoldOnlyExtends` | backend/alerts.go:522-526 | the deadline never moves back, and recovery and waking push it a full grace ahead |
| `OfflineSweep.QuietAfterOutage` | backend/alerts.go:551-714 | after a sweep that found the line down, or two or more servers all missing, a later raise comes a full grace after a sweep that saw the recovery |
| `OfflineSweep.NoRaiseBeforeHold` | backend/alerts.go:551-562 | no reachability alert is raised before any deadline set earlier, the start-up one included |
| `OfflineSweep.OneReachabilityAlert` | backend/alerts.go:688-712 | offline and agent-down are never both up for one server |
| `OfflineSweep.TailnetFound` | backend/alerts.go:595-608 | a lost tailnet is given up in exactly those sweeps past the hold with the line known up and answering if anything is missing, two or more servers watched and one live |
| `OfflineSweep.LostExactly` | backend/alerts.go:595-608 | it counts as lost from one step to another exactly if no sweep between them is such a one |
| `OfflineSweep.SilentWhileLost` | backend/alerts.go:595-608 | and until then no reachability alert is raised |
| `OfflineSweep.LoneServerStaysSilent` | backend/alerts.go:595-608 | in particular never while fewer than two servers are watched |
| `OfflineSweep.DeletedServerSilencesTheOther` | backend/alerts.go:551-714 | a run in which two servers go missing, one is deleted, and the other is an hour later not reported, though without the loss it would be |
| `Watchdog.Watcher.SetConfig` | agent/watchdog.go:70-90 | the whole state after a new configuration |
| `Watchdog.ConfiguredKeeps` | agent/watchdog.go:70-90 | the same role keeps counts and announcements, another one drops both |
| `Watchdog.Watcher.TickOnce` | agent/watchdog.go:315-330 | the whole state and the notices delivered after one tick |
| `Watchdog.PanelQuietExactly` | agent/watchdog.go:342-386 | the panel is reported gone if and only if it has been for the minutes asked for, was not reported yet, no other server sees it, the watcher is not cut off, its gate is open and the notice is delivered |
| `Watchdog.PanelBackExactly` | agent/watchdog.go:388-403 | it is reported back if and only if the tunnel is up and it had been reported gone; when it counts as lost |
| `Watchdog.Watcher.ProbeOnce` | agent/watchdog.go:425-496 | the peer loop, isolation included, against its specification |
| `Watchdog.CutOffExactly` | agent/watchdog.go:425-457 | a watcher takes itself for cut off if and only if none of two or more peers answers, or its own line is down with fewer; it then forgets its counts and keeps its announcements |
| `Watchdog.StepPeer` | agent/watchdog.go:425-496 | what one step does to one peer's count, announcement and notices |
| `Watchdog.TickSends` | agent/watchdog.go:416-496 | exactly what a tick sends about each other peer, for every role: down at the third failure or later, back after an announcement, each with the tunnel down, the notice delivered and the gate open, with the gate's state at that peer |
| `Watchdog.OpenTickSends` | agent/watchdog.go:455-496 | the same for a watcher that names no other primary, where the gate is always open |
| `Watchdog.CountedFailures` | agent/watchdog.go:455-480 | a peer's count is the number of its failed probes since the last success, isolation or role change |
| `Watchdog.DownNoticeNeedsThreeFailures` | agent/watchdog.go:476-494 | a down notice is sent with the tunnel down, at the last of three or more failed probes with no success, isolated tick or role change among them |
| `Watchdog.RecoveryFollowsAnnouncement` | agent/watchdog.go:461-474 | a recovery notice follows an announced outage that nothing ended before |
| `Watchdog.NeverAnnouncedTwice` | agent/watchdog.go:476-494 | two down notices for a peer have a believed success or a role change between them |
| `Watchdog.SecondaryIsSilent` | agent/watchdog.go:414-421 | from any step on, and while it is a secondary naming no primary it had announced at that step, a watcher announces nothing more and sends nothing but one notice that the panel is back, exactly if it had noticed the panel gone before |
| `Watchdog.NothingAnnouncedYet` | agent/watchdog.go:79-88 | nothing is announced at start-up and after every change of role |
| `Watchdog.DemotedPrimarySpeaks` | agent/watchdog.go:388-403 | a run in which a primary made secondary sends that notice |
| `Watchdog.SecondarySpeaks` | agent/watchdog.go:414-421 | a run in which a secondary that named none announces a server, is told that this one is the primary, and announces another |
| `Election.Rank` | backend/webhooks.go:262-271 | the candidates in strict order of coverage, age and id |
| `Election.LessExactly` | backend/webhooks.go:262-271 | ids are ordered by their first difference |
| `Election.Best` | backend/webhooks.go:282-297 | the first-ranked candidate other than the taken one, outside its network if there is one |
| `Election.ElectWatchers` | backend/webhooks.go:258-310 | the seats are the ones the election relation on the set of candidates allows |
| `Election.MostStableFirst` | backend/webhooks.go:258-310 | with no pin online the primary is a candidate that none surpasses in coverage, then age, then id |
| `Election.MostStableElsewhere` | backend/webhooks.go:280-310 | a secondary that is not pinned is outside the primary's network if any candidate is, and surpassed by none of those |
| `Election.OrderDoesNotMatter` | backend/webhooks.go:258-310 | any two results for the same set of candidates and pins are the same |
| `Election.SeatsFilled` | backend/webhooks.go:254-310 | the seats differ; both are filled exactly when two candidates exist; online pins keep their seats; the primary seat is empty with candidates left exactly when the only one is pinned as secondary |
| `Election.NetworkDiversity` | backend/webhooks.go:280-341 | the pair shares a known network if and only if both seats were pinned to such a pair or, with a seat left to choose, every two candidates share one |
| `CronFields.CronFieldValid` | agent/cron_linux.go:153-199 | accepts exactly the fields of the grammar: lists of *, values and ranges within the field's bounds or names, each with an optional step |
| `CronFields.FieldBounds` | agent/cron_linux.go:28-39 | the bounds of the five fields, and which take names |
| `CronFields.NumbersExactly` | agent/cron_linux.go:178-197 | a number is accepted exactly within the bounds of its field |
| `CronFields.PartsFromValues` | agent/cron_linux.go:160-197 | stars, values, ranges, and steps of any of these or of nothing are accepted |
| `CronFields.CapitalNames` | agent/cron_linux.go:153-160 | names may be written in capitals |
| `CronFields.PartValid` | agent/cron_linux.go:160-197 | accepts exactly an item, an item with a step, or a bare step |
| `CronFields.ItemValid` | agent/cron_linux.go:178-197 | accepts exactly *, a value or a range of values |
| `CronFields.FieldOpens` | agent/cron_linux.go:153-199 | a valid minute, hour or day of month starts with a digit, a star or a slash |
| `CronLines.SplitCronFields` | agent/cron_linux.go:90-101 | searching each field in the rest of the line gives the first words and the remainder with its inner spacing |
| `CronLines.ParseCronLine` | agent/cron_linux.go:103-151 | the entry and user a line holds, shortcuts and both file formats included, or none |
| `CronLines.PlainLineMeans` | agent/cron_linux.go:103-151 | a line that is no comment, assignment or shortcut is an entry exactly with six fields: five times, and the rest of the line as it stands |
| `CronLines.UserLineMeans` | agent/cron_linux.go:103-151 | with a user column exactly with seven, the sixth being the user |
| `CronLines.ShortcutLineMeans` | agent/cron_linux.go:108-133 | a shortcut line is an entry exactly if the shortcut is known, in any case, and a command follows |
| `CronLines.ShortcutsMean` | agent/cron_linux.go:42-50 | what each shortcut stands for |
| `CronLines.IsEnvExactly` | agent/cron_linux.go:29-106 | an assignment is exactly a name, blanks and an equals sign at the start |
| `CronLines.NoEntry` | agent/cron_linux.go:103-107 | blank lines, comments and assignments are no entries |
| `CronLines.ValidateCronSpec` | agent/cron_linux.go:201-225 | no error exactly for the valid entries, and otherwise the first bad field with its value, or the command's fault |
| `CronLines.RenderedIsEntry` | agent/cron_linux.go:227-236 | every validated entry is written as a line that reads as an entry with time fields, never as a comment, an assignment or a shortcut |
| `CronLines.RoundTrip` | agent/cron_linux.go:90-236 | a validated entry comes back trimmed, its command's spacing intact, if and only if no time field has white space inside it |
| `CronLines.BlankSpills` | agent/cron_linux.go:159-160 | a validated entry that does not come back |
| `Crontab.ReloadExact` | agent/cron_linux.go:56-86 | what is saved is read back as the same lines if and only if there is a line and none holds a newline |
| `Crontab.LinesAre` | agent/cron_linux.go:56-86 | the lines read are those of the file, with or without a final newline |
| `Crontab.CrontabEntryLines` | agent/cron_linux.go:240-248 | the loop lists the places of the lines that parse |
| `Crontab.EntryLinesAre` | agent/cron_linux.go:240-248 | in rising order, exactly the lines that parse |
| `Crontab.IdRoundTrip` | agent/cron_linux.go:250-258 | an id read back is the number it was made from |
| `Crontab.File.CronCreate` | agent/cron_linux.go:357-381 | the file gains the rendered line at the end, or nothing changes; the id returned |
| `Crontab.File.CronUpdate` | agent/cron_linux.go:383-411 | exactly the line the id names is replaced, or nothing changes; when it succeeds, refusal of @reboot entries included |
| `Crontab.File.CronDelete` | agent/cron_linux.go:413-433 | exactly the line the id names goes, or nothing changes; when it succeeds |
| `Crontab.CreateIsExact` | agent/cron_linux.go:357-381 | re-reading the file gives the old lines and the new entry as given if and only if its time fields hold no inner white space |
| `Crontab.CreateNamesNewLine` | agent/cron_linux.go:357-381 | the id returned names the new line and every earlier id the line it named |
| `Crontab.UpdateIsExact` | agent/cron_linux.go:383-411 | re-reading gives every other line untouched and the entry as given, under the same exact condition |
| `Crontab.UpdateKeepsIds` | agent/cron_linux.go:383-411 | after an update every id names the line it named |
| `Crontab.DeleteReloads` | agent/cron_linux.go:413-433 | a delete is read back as the remaining lines exactly when there are some |
| `Crontab.DeleteKeepsTheRest` | agent/cron_linux.go:413-433 | ids below the deleted one keep their line, those above name the same text one lower |
| `TunnelPool.AllocateTunnelIP` | backend/wireguard.go:288-305 | the lowest free usable address; an error if and only if every usable address is taken |
| `TunnelPool.UsableBytes` | backend/wireguard.go:288-305 | the usable addresses are exactly 10.87.x.y with y from 1 to 254, less the backend's own 10.87.0.1 |
| `TunnelPool.ExhaustedWhenFull` | backend/wireguard.go:288-305 | exhaustion means exactly that all 65023 usable addresses are held, so never with fewer servers |
| `TunnelPool.WireGuardService.CreateServer` | backend/wireguard.go:200-216 | the registry after a create with the lowest free address, or nothing changed; addresses stay distinct and from the pool |
| `TunnelPool.WireGuardService.Rekey` | backend/wireguard.go:221-257 | a server keeps the address it has or gets the lowest free one; the registry after; addresses stay distinct |
| `TunnelPool.WireGuardService.Forget` | backend/wireguard.go:260-275 | the registry after forgetting a server's keys and address |
| `TunnelPool.FindByTunnelIP` | backend/store.go:272-283 | a holder of the address with keys, none only if there is none, and the only holder when addresses are distinct |
| `TunnelPool.StepInv` | backend/wireguard.go:200-275 | each store step, with create and rekey interrupted anywhere by forget, delete and other writes, keeps addresses distinct and the pending one reserved |
| `TunnelPool.AddressesStayDistinct` | backend/wireguard.go:200-305 | in every interleaving from a registry with distinct pool addresses no two servers share one |
| `TunnelPool.AddressesStayInPool` | backend/wireguard.go:288-305 | and every address in use is from the pool and not the backend's own |
| `TunnelPool.AddressIsSticky` | backend/wireguard.go:221-257 | an address is lost only by forgetting, deleting or replacing its server, never by a rekey |

## Left out

- HTTP routes, WebSocket framing, the panel's UI and its broadcasts: thin dispatch around the modelled state.
- Collectors (system, Docker, services, ports, proxies): foreign calls; their readings are inputs.
- Files and JSON: write failures, torn lines, file modes and the reload of the history from disk.
- Spike records: handed over like the samples, so they would only repeat those proofs.
- Disk, Docker and proxy alerts: fire and clear rules without memory on the modelled engine.
- Plugin keys without a bar, which only a damaged store could hold (the code would fail on one).
- The cache of the host reachability probe (backend/alerts.go:150-198): its answer is an input of the sweep.
- Address parsing in `networkKey` (backend/webhooks.go:316-336): a candidate's network is an input, blank when unknown.
- Webhook delivery and its retries: whether a notice is delivered is an input.
- WireGuard keys, peers and handshakes; the tunnel is an opaque value.
- Restoring servers from wg-peers.json: runs of the address pool start from a registry with distinct pool addresses.
- Tunnel addresses as text: an address is its number; the store holds the canonical text of it.
- Backoff and jitter of reconnects, and the tick intervals.
- Floating-point rounding in the forecast and the thresholds: reals are used.
- Invalid UTF-8 in crontab and Caddyfile text: a text is a sequence of characters.
- HistoryLog.OneSamplePerMinute: for the same clocks as BackfillKeeps, on the next line.
- HistoryLog.BackfillKeeps: for clocks later than two weeks after Go's zero time, below which an absent `lastAt` and the zero time cannot be told apart.
- Alerts.FlagsAreUnique: for server ids without a vertical bar; the ids are hexadecimal.
- Crontab.CreateNamesNewLine: for files of fewer than 2^63 lines, the range of the id's number.
- CollectGate.StepInv: callers are interleaved as a state machine rather than run as a class, since the point is what happens between the locked regions.
- Handover.Conservation: for an agent clock that does not run backwards; a sample stamped earlier than one already sent would be dropped with it.
- Handover.DrainedMeansRecorded: one way only; a minute an event carried off may be in the history all the same, sampled by the panel itself.
- UptimeLog.Log.DownFrom: for runs that do not end before they start, as the log writes them.
