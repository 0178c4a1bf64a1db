# Proofs about the forwarding proxy

The proxy forwards TCP and UDP traffic by rules. Each rule has a listener, a main and a backup
address, a recorder of captured connections and limits; a manager changes the rules while they
run; a detector engine looks at the traffic; a web panel imports profiles and draws rates. This
project models the parts of it where state is shared and changed step by step, and proves what
they keep over every run.

`dafny verify dfyconfig.toml` checks everything.

## How it is built

Every state machine is written twice. The first form is a value with one function per operation;
the theorems are about runs of these functions, for every sequence of operations and every answer
of the outside world. The second form is a class with the fields and the loops of the source; each
of its methods is proved to do to the object what the function does to the value, so the theorems
hold of the classes as well. Beside the theorems about runs, what each operation does is stated of
the data it leaves (which bytes, which records, which rules, which session), never by the function
that computes it.

| file | what it holds | what runs are quantified over |
|---|---|---|
| `Capture.dfy`, `Store.dfy`, `StoreRuns.dfy`, `CaptureRuns.dfy`, `StoreLaws.dfy`, `Search.dfy` | the recorder: chunks, flags, eviction, pins, resizing, search | all operations and all writers, with what each writer was given |
| `Recorder.dfy` | the recorder as objects that list and map share | |
| `Relay.dfy`, `Pipe.dfy` | the two copying loops of a connection that feed it, as a machine and as a loop | all reads, partial writes and write errors, interleaved with everything else |
| `Health.dfy` | streaks, verdicts and the choice between the two addresses | all outcomes of probes and connection attempts |
| `RuleSpec.dfy`, `Rule.dfy`, `Manager.dfy`, `ManagerRuns.dfy`, `Transactions.dfy`, `ManagerLaws.dfy` | specifications, one rule, the manager, its transactions, what each operation does | all operations; any bind call may fail |
| `RuleObjects.dfy`, `ManagerObject.dfy` | rules and manager as objects | |
| `Sessions.dfy`, `SessionTargets.dfy`, `SessionStop.dfy`, `SessionTable.dfy` | the UDP session table and the TCP slots, where datagrams go, and why Stop returns | all interleavings of handler, readers, connections, Start and Stop |
| `Windows.dfy`, `Detection.dfy`, `DetectionRuns.dfy`, `Bursts.dfy`, `DetectorObjects.dfy` | sliding windows, signals, scores, findings, bursts | all chunkings, all signals, all configurations, all clocks that do not go back |
| `Profile.dfy`, `Metrics.dfy` | profile import and the rate history | all imports; all counters with resets and removals |
| `Streams.dfy` | sequences of bytes, filters, options | |

The outside world is a parameter: which bind calls fail, the addresses of the interfaces, generated
identifiers (not empty, otherwise arbitrary), what reads and writes return, the results of probes,
the clock, and the decoding of URL-encoded text.

## What the code does that a reader might not expect

* Windowed detection can miss a pattern. When a chunk, with all but one byte of the pattern, is longer
  than the buffer, and so is everything sent up to its end, `Windows.WideChunkHides` builds a stream
  with these chunk ends whose only occurrence is never seen. `Windows.CompleteIffNeverTooWide` shows
  that this is the only way, and `DetectionRuns.DetectionIsCompleteIffWideEnough` the same of whole
  sessions. With the default buffer it cannot happen; with the smallest allowed one
  (4096 bytes) it can, since a TCP read may bring 32 KiB.
* docs/getting-started.md:33 says that in mode `auto` the backup is used after the set number of
  errors and left when the main address has recovered. The code does more cautious things
  (internal/proxy/health.go:283-292), and the model follows it: `Health.FailoverIffEnabled` and
  `Health.FailbackIffEnabled` give the exact conditions with the runs that show where they fail, and
  `Health.DownMainAloneIsNotEnough` the run in which both addresses are down.
* docs/traffic-analysis.md speaks of twenty connections within ten seconds; the code signals at
  exactly the twentieth entry of the list (internal/proxy/detect.go:426).
* Built-in detectors are not compared with configured ones when identifiers are checked for
  duplicates (internal/proxy/detect.go:271-284). A configured detector with the identifier of a
  built-in one, or of the burst signal, shares its once-only mark, so
  `DetectionRuns.MatchedIffInStream` asks for an identifier of its own.
* StopAll leaves rules enabled, so enabled and running agree only without it
  (`ManagerRuns.EnabledIffRunning`), while running always implies enabled.

## Model

| member | source | states |
|---|---|---|
| `StoreRuns.CapturesArePrefixes` | internal/proxy/dump.go:415-458 | In every run of begins, writes, datagrams, resizes, pins, findings, clears and finishes, the captured bytes of each direction are a prefix of what the writer was given while its record was open, and `truncated` holds exactly when one of the two prefixes is proper |
| `CaptureRuns.CapturesAreTheFirstBytes` | internal/proxy/dump.go:415-458 | In every run without a Resize every record holds, of each direction, exactly the first MaxBytesPer bytes of what its writer was given, unless its chunks have run out; that happens only at 256 chunks, and without datagrams neighbouring chunks are of different directions |
| `CaptureRuns.RecordsAreLimited` | internal/proxy/dump.go:91-99 | In every run without a Resize there are never more records than MaxConns, or 50 when that is not positive |
| `CaptureRuns.WriteStoresWhatFits` | internal/proxy/dump.go:439-456 | While a direction is not stopped and a chunk is left, a write makes the capture the first MaxBytesPer bytes of what it was followed by the write, and stops the direction exactly when that leaves something out; the chunks have run out exactly when something should be stored and none is left |
| `CaptureRuns.WriteMakesChunks` | internal/proxy/dump.go:448-455 | What is stored joins the last chunk when that is of the same direction and it is not a datagram, and makes a chunk of its own otherwise |
| `CaptureRuns.StoppedWriteStoresNothing` | internal/proxy/dump.go:431-438 | A write to a stopped direction is counted and stores nothing |
| `StoreRuns.MissingBytesStayMissing` | internal/proxy/dump.go:431-446 | Once bytes of a direction are missing, no later write and no larger Resize appends to that direction |
| `StoreRuns.DatagramsKeepTheirBoundaries` | internal/proxy/dump.go:411-413 | An untruncated capture of a datagram session holds the datagrams one chunk each, in order |
| `StoreRuns.FinishAgreesWithLiveTotals` | internal/proxy/dump.go:460-480 | For a connection captured from its Begin and still retained, the live totals are the lengths of what its writer was handed, so Finish with those lengths only closes the record |
| `StoreRuns.HandedAccumulates` | internal/proxy/dump.go:431-435 | What a writer was handed is the concatenation of its own writes, whatever is interleaved |
| `StoreRuns.RunKeepsWorldOk` | internal/proxy/dump.go:78-89 | Every run keeps the whole invariant of the store and of what was sent |
| `StoreRuns.ReachableRecord` | internal/proxy/dump.go:415-458 | Every retained record of every run is faithful to what was sent to it |
| `StoreRuns.RunDescends` | internal/proxy/dump.go:415-430 | Over any number of operations every record is new or evolved from one that was there, and a closed capture is final |
| `StoreRuns.OnlyOpenStaysOpen` | internal/proxy/dump.go:202-208 | No operation re-opens a token: a writer's record is open later only if it was open before |
| `StoreRuns.StaleWriterIsHarmless` | internal/proxy/dump.go:427-430 | A writer whose record was finished, evicted, replaced or cleared never changes any record again |
| `StoreRuns.PinnedRecordsStay` | internal/proxy/dump.go:164-172 | In every run a pinned record stays until it is unpinned or ClearAll is called |
| `StoreRuns.AutoPinnedRecordsStay` | internal/proxy/dump.go:211-228 | A capture pinned by the detector stays in every run until it is unpinned or ClearAll is called |
| `StoreRuns.ResizeSurvivors` | internal/proxy/dump.go:103-121 | Resize is refused exactly when the pins do not fit; otherwise all pins and the newest unpinned records survive, in order, trimmed |
| `StoreRuns.BeginIsRefusedExactlyForPins` | internal/proxy/dump.go:187-201 | A connection is not captured exactly when its earlier capture is pinned or every slot is |
| `StoreLaws.BeginMakesOneRecord` | internal/proxy/dump.go:187-209 | A captured connection gets an empty record with the next token; every other record stays, apart from an earlier one of the same connection, and apart from the oldest unpinned one when the other connections fill all slots |
| `StoreLaws.SetPinnedPins` | internal/proxy/dump.go:271-281 | Pinning sets the pin of the connection and changes nothing else |
| `StoreLaws.MarkFindingMarks` | internal/proxy/dump.go:211-228 | A finding is counted on the record of its connection, raises its risk to the score and pins it when asked to; it never lowers or unpins |
| `StoreLaws.FinishCloses` | internal/proxy/dump.go:460-480 | Finish closes the open record of the writer with the given totals, and no other |
| `StoreLaws.ClearLeavesThePinned` | internal/proxy/dump.go:383-398 | Clear leaves exactly the pinned records, ClearAll none |
| `StoreLaws.ResizeLeavesTheNewest` | internal/proxy/dump.go:103-162 | An accepted Resize leaves exactly the pinned records and those with fewer newer unpinned ones than the pins leave room for, and of each the first bytes of both directions |
| `StoreLaws.ResizeWithoutEffect` | internal/proxy/dump.go:103-118 | With more pins than records allowed, with limits that are not positive, and with the limits of before, Resize changes nothing |
| `Store.ApplyOk` | internal/proxy/dump.go:78-89 | Every operation keeps the count within the limit, IDs distinct, tokens increasing and every capture within its byte and chunk limits |
| `Store.ResizeOk` | internal/proxy/dump.go:103-162 | Resize re-establishes the limits for the new sizes |
| `Store.BeginOk` | internal/proxy/dump.go:187-209 | A new record keeps tokens increasing and IDs distinct |
| `Store.WriteStateOk` | internal/proxy/dump.go:415-458 | A write keeps every capture within its limits |
| `Store.FinishOk` | internal/proxy/dump.go:460-480 | Finish keeps the store well-formed |
| `Store.DropOldestKeepsPins` | internal/proxy/dump.go:164-172 | Evicting keeps every pinned record |
| `Store.DropOldestKeepsNewest` | internal/proxy/dump.go:164-172 | Evicting n times leaves the unpinned records without their n oldest |
| `Store.DropOldestNext` | internal/proxy/dump.go:119-121 | One more turn of the eviction loop always finds an unpinned record and drops the oldest |
| `Capture.TrimKeepsPrefix` | internal/proxy/dump.go:138-159 | Trimming leaves of each direction exactly its leading bytes |
| `Capture.TrimNeverAddsChunks` | internal/proxy/dump.go:138-159 | Trimming never makes more chunks |
| `Capture.TrimIsFaithful` | internal/proxy/dump.go:134-160 | A trimmed capture is still a faithful prefix |
| `Capture.WriteIsFaithful` | internal/proxy/dump.go:431-457 | A write keeps the capture a faithful prefix whatever room, flags and chunks are left |
| `Capture.WriteOk` | internal/proxy/dump.go:431-457 | A write keeps the byte limit and the chunk limit |
| `Capture.TrimEvolves` | internal/proxy/dump.go:134-160 | Trimming keeps the flags and lets no stopped direction grow |
| `Search.MatchesAreTheSelected` | internal/proxy/dump.go:329-370 | The matches are exactly the records that pass the filters and contain the needle in a searched direction |
| `Search.MatchesAreSorted` | internal/proxy/dump.go:364-370 | Pinned matches come first and each group is newest first |
| `Search.PagesAddUp` | internal/proxy/dump.go:371-378 | Pages at offsets 0, L, 2L, ... concatenate to all matches, each once, with the total equal to their number |
| `Search.FaithfulHits` | internal/proxy/dump.go:345-358 | On a faithful record a hit implies that what is searched for was sent, and without truncation the converse holds |
| `Search.SearchIsTruthful` | internal/proxy/dump.go:283-380 | In every run a record that some page lists passes the filters, and the bytes that the query means (those of its text, or those that its hex digits spell) were sent to it contiguously in a searched direction; and an untruncated record is on some page exactly when that is so |
| `Search.ReturnedItemsWereSent` | internal/proxy/dump.go:283-380 | In every run every item of every returned page stands for a retained record that passes the filters and was really sent what the query means |
| `Search.NeedleIsMeant` | internal/proxy/dump.go:304-313 | What is searched for is the text itself, or the bytes whose pairs of digits are the hex digits of the text in order, and a query means one needle only |
| `Search.AcceptedQueries` | internal/proxy/dump.go:285-327 | A query is accepted exactly when its page, interval, direction and length are in range and its mode is known, and in hex mode exactly when its text is an even number of digits with Unicode white space of any kind between them |
| `Search.PagesAreFull` | internal/proxy/dump.go:292-294 | A page has as many items as asked for, 100 when the query does not say, or what is left of the matches |
| `Search.HexReachesEveryNeedle` | internal/proxy/dump.go:308-313 | In hex mode every byte string can be searched for |
| `Recording.Recorder.constructor` | internal/proxy/dump.go:91-99 | A new recorder is empty and has positive limits |
| `Recording.Recorder.Resize` | internal/proxy/dump.go:103-162 | In place: count, evict, rebuild, trim, equal to the resize of the store; the outcome of the capacity test does not matter |
| `Recording.Recorder.Shrink` | internal/proxy/dump.go:119-121 | The eviction loop ends, because the pins alone fit, and leaves the newest unpinned records |
| `Recording.Recorder.RebuildActive` | internal/proxy/dump.go:122-133 | The rebuilt map of writable records is the map that is there |
| `Recording.Recorder.EvictOldestUnpinned` | internal/proxy/dump.go:164-172 | Removes the first unpinned record, or reports that there is none |
| `Recording.Recorder.Remove` | internal/proxy/dump.go:174-179 | Removes one record from the list and its writer from the map |
| `Recording.Recorder.BeginProtocol` | internal/proxy/dump.go:187-209 | In place: replace, evict or refuse, and a fresh token, equal to the begin of the store |
| `Recording.Recorder.MarkFinding` | internal/proxy/dump.go:211-228 | Marks the first record of a connection |
| `Recording.Recorder.SetPinned` | internal/proxy/dump.go:271-281 | Pins or unpins the first record of a connection |
| `Recording.Recorder.Find` | internal/proxy/dump.go:283-380 | Search in place returns the page of the search on values, with the same errors |
| `Recording.Recorder.Clear` | internal/proxy/dump.go:383-391 | Removes every unpinned record, from the newest down |
| `Recording.Recorder.ClearAll` | internal/proxy/dump.go:393-398 | Removes everything |
| `Recording.Recorder.Write` | internal/proxy/dump.go:415-458 | A write through a token changes only the open record with that token |
| `Recording.Recorder.Finish` | internal/proxy/dump.go:460-480 | Closes the open record with that token and forgets the writer |
| `Recording.RecordedConn.Append` | internal/proxy/dump.go:431-457 | Total, room, flags, coalescing and chunk limit, in place |
| `Recording.RecordedConn.Trim` | internal/proxy/dump.go:134-160 | The trimming loop in place equals the trimming of values |
| `Relay.DeliveryIsExact` | internal/proxy/rule.go:401-440 | For any sequence of read results, short writes and failures the destination has accepted a prefix of what was read, part by part, the total is its length, and at the end of the source it has accepted everything |
| `Relay.FinishAgreesWithBothPipes` | internal/proxy/rule.go:367-377 | With both pipes interleaved in any way with each other and with anything else that happens to the recorder, Finish with the two returned totals only closes a record that is still there, and its capture is a prefix of what each destination accepted, all of it unless truncated |
| `Relay.ActsAgree` | internal/proxy/rule.go:408-419 | At every moment of every interleaving the writer was handed exactly what the two destinations accepted |
| `Relay.EachPipeRunsAlone` | internal/proxy/rule.go:372-373 | Each pipe goes the way its own reads and writes take it |
| `Pipe.Pipe` | internal/proxy/rule.go:401-440 | Whatever reads and partial writes happen, the destination has accepted a prefix of the bytes read, and all of them unless a write failed; the writer is handed exactly what was accepted; counter and result grow by its length; the end of the source is passed on exactly when everything was accepted |
| `Pipe.Deliver` | internal/proxy/rule.go:408-425 | The destination accepts, the counter counts and the writer is handed the same first part of a read, all of it unless a write failed |
| `Health.StreaksSummariseHistory` | internal/proxy/health.go:233-264 | After any outcomes each streak is the trailing run cut at FailAfter, or RiseAfter (2 when not positive), and the up flag is the verdict of the latest run to reach that, initially up; outcomes of other endpoints do not count |
| `Health.StreaksContinue` | internal/proxy/health.go:233-264 | The same from any route whose counters summarise earlier results |
| `Rules.UpdateKeepsOrRestartsHistory` | internal/proxy/manager.go:223-233 | Across an update an endpoint that stays keeps its history and one that changes starts again with none |
| `Health.DownMeansUnanswered` | internal/proxy/health.go:248-264 | An address is down exactly when some run of failures reached its threshold and no run of successes has since |
| `Health.NoteSummarised` | internal/proxy/health.go:248-264 | One more outcome on the saturating counters is one more outcome on the history |
| `Health.FailoverCannotFlap` | internal/proxy/health.go:233-300 | FailAfter times the switches to the backup is at most the main address's failures, and RiseAfter times the switches back at most its successes, each 2 when it is not positive |
| `Health.VerdictsArePaid` | internal/proxy/health.go:233-264 | Every change of the up flag has used up FailAfter failures, or RiseAfter successes, of its own |
| `Health.SwitchesFollowVerdicts` | internal/proxy/health.go:275-292 | Every change of the route follows a change of the up flag of its own; a route chosen by hand never changes |
| `Health.RouteMovesOrHolds` | internal/proxy/health.go:275-292 | After any outcomes the route is that of the manual mode, or in mode auto goes to the backup, back to the main address, or is held where it was, in the stated cases, which are all cases; new connections go where it leads |
| `Health.DecisionSettles` | internal/proxy/health.go:275-292 | A decision on any route does the same, whatever brought the route about |
| `Health.FailoverIffEnabled` | internal/proxy/health.go:284-286 | After any outcomes a main address that is down gives way to a backup that is up, if and only if automatic failover is on |
| `Health.FailbackIffEnabled` | internal/proxy/health.go:287-290 | After any outcomes a main address that is up is in use, if and only if automatic failback is on or automatic failover is off |
| `Health.DownMainAloneIsNotEnough` | internal/proxy/health.go:285 | Whatever the switches, a main address that is down does not bring a backup into use that has failed too |
| `RuleObjects.Rule.CurrentTarget` | internal/proxy/rule.go:280-285 | The address for the next connection; never a backup that is not set |
| `RuleObjects.Rule.DecideFailover` | internal/proxy/health.go:275-292 | The routing decision in place |
| `RuleObjects.Rule.NoteProbe` | internal/proxy/health.go:233-273 | One outcome in place: default thresholds, saturating streaks, flags, decision |
| `RuleObjects.Rule.NoteEndpointProbe` | internal/proxy/health.go:215-225 | An outcome of another endpoint than the present one changes nothing |
| `RuleObjects.Rule.SetRoutingMode` | internal/proxy/health.go:302-315 | A mode that is unknown, or a backup that is not set, is refused without a change |
| `Specs.DefaultsAreIdempotent` | internal/proxy/spec.go:134-152 | Defaults applied twice are defaults applied once |
| `Specs.DefaultsFill` | internal/proxy/spec.go:54-152 | Defaults stand exactly where nothing, or nothing positive, is given |
| `Specs.ValidMeans` | internal/proxy/spec.go:176-297 | The specifications that pass validation, as one condition on their fields |
| `Specs.ConflictMeansSameAddress` | internal/proxy/manager.go:78-100 | Two listeners conflict exactly when, on the same port and protocol, some address would be for both |
| `Specs.AclIsTheNetworks` | internal/proxy/spec.go:333-353 | The compiled allow list holds exactly the listed networks |
| `Specs.NormalUnderSwitches` | internal/proxy/spec.go:176-245 | Switching a rule on or off, or to an allowed mode, keeps its specification valid |
| `Rules.RefusedUpdateChangesNothing` | internal/proxy/manager.go:190-218 | A refused update leaves specification, allow list, captures, route and running state alone; only if the old address cannot be bound again is the rule switched off; no socket of the attempt stays open |
| `Rules.UpdateTakesEffect` | internal/proxy/manager.go:205-242 | An accepted update is in force as a whole: specification, allow list and running state; all pinned captures and the newest others within the new limits, and all of them unchanged when the limits are; the verdict and streaks of an endpoint that stays, and a fresh start for one that changes; a route decided anew |
| `Rules.PrepareFrame` | internal/proxy/manager.go:205-215 | Before any setting changes, at most the rule's own socket is closed and at most the new one opened; the old listener is stopped exactly when the first bind failed on the same port and protocol |
| `Managers.UpdateOk` | internal/proxy/manager.go:160-243 | An update keeps the manager's whole invariant |
| `Managers.AddOk` | internal/proxy/manager.go:112-150 | So does an addition, whether its listener starts or not |
| `Managers.DeleteOk` | internal/proxy/manager.go:288-310 | So does a deletion |
| `Managers.ModeOk` | internal/proxy/manager.go:268-286 | So does a change of the routing mode |
| `Managers.StopAllStops` | internal/proxy/manager.go:432-438 | StopAll closes every socket and changes nothing else; enabled rules stay enabled |
| `Managers.ReplaceSpecsOk` | internal/proxy/manager.go:397-430 | Replacing the profile keeps the invariant, with or without rollback |
| `Managers.LoadSpecsOk` | internal/proxy/manager.go:351-361 | So does loading a list |
| `Managers.SwapKeepsSockets` | internal/proxy/rule.go:151-229 | When a rule exchanges its own socket, every other rule keeps its own and nothing leaks |
| `ManagerRuns.RunOk` | internal/proxy/manager.go:15-23 | Every run of manager operations, probes and captures, under any refused binds, keeps the invariant |
| `ManagerRuns.OpenSocketsAreTheRunningRules` | internal/proxy/rule.go:151-229 | In every reachable state the open sockets are exactly one per running rule, bound to its present address and protocol |
| `ManagerRuns.StoredRulesAreValid` | internal/proxy/manager.go:78-100 | In every reachable state no two rules conflict, stored specifications are valid, only enabled rules run, and the order lists each rule once |
| `ManagerRuns.EnabledIffRunning` | internal/proxy/manager.go:141-148 | Without StopAll a rule is enabled exactly when it runs |
| `Transactions.UpdateIsAllOrNothing` | internal/proxy/manager.go:160-243 | Update at the level of the manager: no other rule changes, an error keeps the old rule (switched off exactly when its address cannot be bound again), success puts the new specification in force field by field, with a listener exactly when enabled |
| `ManagerLaws.UpdateSucceedsExactly` | internal/proxy/manager.go:160-221 | Update succeeds exactly for a known rule, valid settings, an address no other rule has, a limit that the pins fit, and a listener that is there already or is granted, at the first attempt or at the second |
| `ManagerLaws.UpdateKeepsTheListener` | internal/proxy/manager.go:183-187 | A rule that stays where it is keeps its socket, and no bind is tried |
| `ManagerLaws.SetEnabledTakesEffect` | internal/proxy/manager.go:252-266 | Switching a rule fails exactly when it is unknown, or is to start and its address is refused, and then leaves it as it was; otherwise it runs exactly when enabled, with captures, probes and all other settings as they were |
| `ManagerLaws.SetRoutingModeTakesEffect` | internal/proxy/manager.go:268-286 | A mode is refused exactly when the rule or the mode is unknown or the backup is not set; otherwise only the mode and the decision change |
| `ManagerLaws.AddTakesEffect` | internal/proxy/manager.go:112-150 | A rule that may be added comes last, without captures and with both addresses up, runs if it is enabled and its bind is granted, and is switched off and reported otherwise; one that may not changes nothing but the generated identifiers |
| `ManagerLaws.DeleteTakesEffect` | internal/proxy/manager.go:288-310 | The deleted rule is gone and its listener closed; all others stay, in their order |
| `ManagerLaws.LoadingAccountsForAll` | internal/proxy/manager.go:351-361 | Loading changes no rule that is there, appends at most one for each specification and reports every one it does not append, and without refused binds no other |
| `ManagerLaws.NothingIsForTwoRules` | internal/proxy/manager.go:78-100 | In every reachable state an address on a port is heard by the listener of at most one rule |
| `Transactions.NormalizeIsExact` | internal/proxy/manager.go:365-393 | A list is accepted exactly when, with defaults and identifiers, it is valid, duplicate-free and conflict-free, and it is returned in order |
| `Transactions.ReplaceIsATransaction` | internal/proxy/manager.go:397-430 | A refused list changes nothing; an accepted one fails only at a bind; success leaves exactly the list, a successful rollback exactly the old list, and a failing rollback stops at the first rule it cannot bind |
| `Transactions.ImportNeedsOnlyTheBinds` | internal/proxy/manager.go:397-430 | An accepted list is imported unless some bind call is refused |
| `Transactions.AddEachHolds` | internal/proxy/manager.go:412-416 | Adding a profile to an empty manager puts all of it in, or everything up to an enabled rule whose bind failed, which stays switched off |
| `Transactions.WorldHolds` | internal/proxy/manager.go:340-347 | The list of a reachable manager can itself be a profile |
| `RuleObjects.Rule.constructor` | internal/proxy/rule.go:61-79 | A new rule is stopped, its endpoints are up, and it uses the backup only when told to |
| `RuleObjects.Rule.Start` | internal/proxy/rule.go:151-187 | Takes over a bound socket, or binds; a running rule closes the socket it is offered |
| `RuleObjects.Rule.Stop` | internal/proxy/rule.go:195-217 | Closes the listener once |
| `RuleObjects.Rule.Prepare` | internal/proxy/manager.go:205-212 | Bind before swap, with the second attempt after a stop |
| `RuleObjects.Rule.Restore` | internal/proxy/manager.go:190-204 | The restore closure |
| `RuleObjects.Rule.Configure` | internal/proxy/manager.go:223-233 | Takes over the settings; endpoints that changed count as up again |
| `RuleObjects.Rule.Reconfigure` | internal/proxy/manager.go:181-243 | The locked part of an update in place, with its error |
| `ManagerObject.Manager.CheckPortConflict` | internal/proxy/manager.go:78-100 | The loop over the rules finds a conflict exactly when there is one |
| `ManagerObject.Manager.AddLocked` | internal/proxy/manager.go:112-150 | Addition in place, with its error |
| `ManagerObject.Manager.UpdateLocked` | internal/proxy/manager.go:160-243 | Update in place, with its error |
| `ManagerObject.Manager.SetEnabled` | internal/proxy/manager.go:252-266 | Switching in place |
| `ManagerObject.Manager.SetRoutingMode` | internal/proxy/manager.go:268-286 | Change of mode in place |
| `ManagerObject.Manager.Delete` | internal/proxy/manager.go:288-310 | Deletion in place: map, order and listener |
| `ManagerObject.Manager.Specs` | internal/proxy/manager.go:319-347 | Lists the specifications in order |
| `ManagerObject.Manager.LoadSpecs` | internal/proxy/manager.go:351-361 | Adds each specification and collects the errors |
| `ManagerObject.Manager.NormalizeRuleSet` | internal/proxy/manager.go:365-393 | The loops that complete and check a profile |
| `ManagerObject.Manager.ReplaceSpecs` | internal/proxy/manager.go:397-430 | Replacement in place, with rollback |
| `ManagerObject.Manager.StopAll` | internal/proxy/manager.go:432-438 | Stops every rule in place |
| `Sessions.ActiveCountIsExact` | internal/proxy/udp.go:129-147 | In every interleaving of handler, readers, TCP connections, Start and Stop, the active count plus the pending installation is the number of sessions and reserved connections, and every session in the table has a reader or is about to get one |
| `Sessions.CountedDownExactlyOnce` | internal/proxy/udp.go:201-209 | An installed session is counted down once when it has left the table, however its key is reused, and no other session ever is |
| `Sessions.StoppedMeansEmpty` | internal/proxy/rule.go:195-229 | After Stop there is no session, no reserved connection, a count of zero and no upstream socket |
| `SessionStop.ReadersAreLetGo` | internal/proxy/rule.go:208-227 | Once Stop has closed its list and the datagram loop has ended, no reader still reads from an open upstream, in every interleaving |
| `SessionStop.EveryStepBringsStopNearer` | internal/proxy/rule.go:213-227 | From then on every possible step of any goroutine reduces what Stop waits for, or is its return |
| `SessionStop.SomeStepIsPossible` | internal/proxy/rule.go:226-227 | And some step is always possible, the return exactly when nothing is left |
| `SessionStop.RunStopOk` | internal/proxy/udp.go:166-209 | In every interleaving a reader with an open upstream has its session in the table or about to be closed, and while Stop closes sessions the open ones of the table are on its list |
| `Sessions.OpenUpstreamsAreHeld` | internal/proxy/udp.go:38-45 | An upstream socket is open only while a reader or the handler is there to close it |
| `Sessions.LimitIsNeverExceeded` | internal/proxy/udp.go:89-94 | With a fixed positive MaxConns neither sessions nor connections exceed it, although the dial is unlocked |
| `SessionTargets.DatagramsGoToTheirTarget` | internal/proxy/udp.go:73-164 | At every moment of every interleaving, what the handler dials, holds or sends on belongs to the client of the datagram and leads to the target that was current when it came |
| `SessionTargets.DatagramUsesItsSession` | internal/proxy/udp.go:75-94 | A session that leads to the current target stays and is used, an unknown client is dialed for unless the table is full, and a stopped rule drops the datagram |
| `SessionTargets.DatagramLeavesTheOldTarget` | internal/proxy/udp.go:83-94 | A session that leads elsewhere leaves the table, is closed and counted down once, and the current target is dialed instead |
| `SessionTargets.DialOutcome` | internal/proxy/udp.go:96-127 | A dial that succeeds opens an upstream to what was asked for, under a number nobody has; one that fails changes nothing |
| `SessionTargets.InstallOutcome` | internal/proxy/udp.go:129-147 | The dialed session enters the table of a running rule, and is closed otherwise |
| `SessionTargets.SendOutcome` | internal/proxy/udp.go:149-163 | A session that cannot be written to is taken out and closed, and one that can stays |
| `SessionTargets.ReaderOutcome` | internal/proxy/udp.go:201-209 | A reader that ends takes out its own session if it is still there, and no other |
| `SessionTargets.ReserveOutcome` | internal/proxy/rule.go:289-302 | A connection is granted exactly while the rule runs and is below its limit, where 0 means none |
| `Sessions.InstallFindsTheKeyFree` | internal/proxy/udp.go:135-138 | The second look into the table never finds another session |
| `Sessions.StepOk` | internal/proxy/udp.go:73-164 | Every atomic step of every goroutine keeps the invariant |
| `SessionTable.Table.FindSession` | internal/proxy/udp.go:75-94 | The first locked section in place: retarget, count down, capacity |
| `SessionTable.Table.OpenSession` | internal/proxy/udp.go:96-127 | A dialed session has a number of its own and an open upstream |
| `SessionTable.Table.InstallSession` | internal/proxy/udp.go:129-141 | The second locked section in place |
| `SessionTable.Table.RemoveSession` | internal/proxy/udp.go:201-207 | Only the very session in the table counts down |
| `SessionTable.Table.ReserveSlot` | internal/proxy/rule.go:289-302 | Reserves a slot and counts it, or refuses |
| `SessionTable.Table.ReleaseSlot` | internal/proxy/rule.go:306-311 | Gives the slot back |
| `Windows.WindowIsSuffix` | internal/proxy/detect.go:436-440 | The buffer is the last BufferBytes bytes of the direction's stream |
| `Windows.SuffixStays` | internal/proxy/detect.go:436-440 | With a size that changes on the way it is still a suffix |
| `Windows.SeenIsSeenIn` | internal/proxy/detect.go:436-455 | An occurrence is found exactly when it is inside the buffer after some chunk |
| `Windows.CompleteIffNeverTooWide` | internal/proxy/detect.go:436-455 | For given chunk ends nothing is missed, whatever the bytes, exactly when at every chunk end either everything so far or the chunk with all but one byte of the needle fits the buffer |
| `Windows.WideChunkHides` | internal/proxy/detect.go:437-439 | Otherwise there is a stream whose only occurrence is missed |
| `Windows.SmallChunksMissNothing` | internal/proxy/detect.go:436-455 | In particular small chunks miss nothing |
| `DetectionRuns.MatchedIffInStream` | internal/proxy/detect.go:431-462 | When no chunk in a watched direction is too wide, a session has matched a plain pattern exactly when it occurs in such a direction's whole stream, or in what some buffer decoded to, whatever signals the session carried before |
| `DetectionRuns.DetectionIsCompleteIffWideEnough` | internal/proxy/detect.go:436-455 | For chunks of a given shape, whatever their bytes, and nothing to decode, a session has matched exactly when the pattern occurs in a watched direction, if and only if no chunk there is too wide |
| `DetectionRuns.SmallPiecesAreWideEnough` | internal/proxy/detect.go:436-440 | It is enough that every chunk length plus the pattern length minus one is at most BufferBytes |
| `DetectionRuns.ChunksAddUp` | internal/proxy/detect.go:431-462 | Over any chunks the score stays the sum over distinct detectors, and with the reports of the chunks creation and pinning are still reported once each, if at all |
| `DetectionRuns.MatchedAreTheFired` | internal/proxy/detect.go:441-461 | The matched detectors are exactly those that fired after some chunk |
| `DetectionRuns.DefaultBufferIsWideEnough` | internal/proxy/detect.go:54-56 | The default buffer misses no pattern that a configuration can hold |
| `DetectionRuns.ScoresAddUp` | internal/proxy/detect.go:581-619 | Over any signals and configurations a score is the sum over distinct detectors, at most 100, and creation and pinning are reported once each, if at all |
| `DetectionRuns.SignalOutcome` | internal/proxy/detect.go:581-619 | One signal in full: it counts once for each detector, the score stops at 100, a number is given when the threshold is reached, a pin when that is allowed and the score for it is reached, and the hook is told what is new |
| `DetectionRuns.FindingsAreDue` | internal/proxy/detect.go:600-612 | As long as the configuration stays, in every run a session has a numbered finding exactly when its score has reached the threshold, and is pinned exactly when it may be and the score says so |
| `DetectionRuns.SignalsAreTheDetectors` | internal/proxy/detect.go:441-461 | Whatever a session is sent, its signals are those of the compiled detectors, each with the score of its detector |
| `DetectionRuns.CompiledAreTheEnabled` | internal/proxy/detect.go:271-284 | Compiled are exactly the enabled detectors and, when asked for, the built-in ones; a detector without a score counts 25 |
| `DetectionRuns.ConfigureTakesEffect` | internal/proxy/detect.go:67-131 | An invalid configuration changes nothing; a valid one is in force with its defaults, and the newest findings that it allows stay |
| `DetectionRuns.FindingsCountDown` | internal/proxy/detect.go:600-608 | The list of findings stays within its limit and its i-th number is the counter minus i |
| `DetectionRuns.RunOk` | internal/proxy/detect.go:581-619 | Every run keeps the invariant of engine, sessions and reports; no two sessions share a number |
| `Bursts.Search` | internal/proxy/detect.go:423 | The binary search finds the first time that is not before the cutoff |
| `Bursts.CutIsFilter` | internal/proxy/detect.go:422-425 | On a sorted list the cut is the filter |
| `Bursts.WindowIsRecentHistory` | internal/proxy/detect.go:368-382 | With a clock that does not go back the pruned list is always the part of the whole counted history within ten seconds of the latest event, whatever clean-ups came in between and however late they were handled |
| `DetectionRuns.CompiledDetectors` | internal/proxy/detect.go:145-213 | Every compiled detector has a score from 1 to 100, and a configured one has an identifier of its own unless the program uses it itself, for a built-in detector or for the burst signal |
| `DetectorObjects.NewDetectorEngine` | internal/proxy/detect.go:250-258 | An engine exists only with an accepted configuration |
| `DetectorObjects.CompileDetectors` | internal/proxy/detect.go:275-284 | Compiles the enabled detectors in order |
| `DetectorObjects.DetectorEngine.Configure` | internal/proxy/detect.go:266-292 | A configuration in place; an invalid one changes nothing |
| `DetectorObjects.DetectorEngine.ClearFindings` | internal/proxy/detect.go:312-316 | Empties the list and keeps the counter |
| `DetectorObjects.DetectorEngine.AddSignal` | internal/proxy/detect.go:581-619 | A signal in place, on the finding object that list and session share |
| `DetectorObjects.DetectorEngine.InspectChunk` | internal/proxy/detect.go:431-462 | A chunk in place: buffer, every detector in turn, and the calls of the hook |
| `DetectorObjects.DetectorEngine.DetectBurst` | internal/proxy/detect.go:409-429 | A counted connection in place, keeping the lists in order; exactly the twentieth entry signals |
| `DetectorObjects.DetectorEngine.CleanUp` | internal/proxy/detect.go:374-382 | The clean-up of the burst lists in place, keeping them in order |
| `Profile.MergeIs` | internal/web/api.go:557-570 | A merge leaves unmentioned rules in place, lets the last import of an existing identifier win and appends the rest in order |
| `Profile.Merge` | internal/web/api.go:557-570 | The merged list is as long as the current one plus the additions, and additions and updates make up the import |
| `Profile.CombineByMode` | internal/web/api.go:525-571 | What each mode text does: a merge, which is also no mode, replaces in place and appends what is new in order, a replacement leaves the import, and the preview counts what is new, what is not and what disappears; any other mode is refused |
| `Profile.ReplaceAccountsForAll` | internal/web/api.go:538-555 | With distinct identifiers updated and removed add up to the current rules |
| `Profile.ReplacedImportAccountsForAll` | internal/web/api.go:538-577 | The preview of a replacement that NormalizeRuleSet accepts accounts for every rule of the manager |
| `Profile.MergedImportKeepsTheRest` | internal/web/api.go:557-577 | After an import in mode merge that goes through the manager there are as many rules as before and as the preview says were added, and every unmentioned rule is exactly where and what it was |
| `Profile.CombineRules` | internal/web/api.go:525-571 | The loops of the merge and of the preview |
| `Profile.MergeProfileRules` | internal/web/api.go:525-578 | The whole function: the combined list, completed and checked, with the preview and the errors |
| `Metrics.RatesNeverExceedTraffic` | internal/web/metrics.go:59-92 | With increasing sample times the sum of rate times elapsed over the stored samples never exceeds the true traffic, and equals it when no counter is reset |
| `Metrics.SamplesAreTheLast` | internal/web/metrics.go:59-85 | There is one sample for each observation, with its time and its active connections, and the list holds the last 300 |
| `Metrics.WorthIsTrue` | internal/web/metrics.go:65-76 | The same for one sample |
| `Metrics.MetricsHistory.Observe` | internal/web/metrics.go:59-85 | An observation in place; the list holds the last 300 samples |

## Left out

- Regular expressions: the search has no such mode, a detector takes the answer from a parameter, and the checks of health texts are one given flag (`HealthSpec.wellFormed`).
- Case-insensitive text patterns of detectors, and case folding of addresses beyond ASCII: the first count as patterns whose answer is a parameter.
- The parts of an HTTP message that detectors may look at, and URL decoding: parameters of `Detection.Fires`.
- Sockets, dialing, deadlines, DNS, health probes over the network, goroutines and locks: what is left of them are the parameters above and the atomic sections of the session table.
- Recording.Recorder.Find: the recorder does not change while it searches; the source releases its lock between records, so a record may change or be pinned during a search.
- CaptureRuns.CapturesAreTheFirstBytes: runs without a Resize, which cuts what is there; `StoreRuns.CapturesArePrefixes` and `StoreLaws.ResizeLeavesTheNewest` say what is left then.
- DetectionRuns.FindingsAreDue: the configuration stays; `DetectionRuns.SignalOutcome` says the same of one signal under any configuration.
- Search.SearchIsTruthful: text and hex queries; the direction of a query is one of the three the source accepts.
- StoreRuns.FinishAgreesWithLiveTotals: TCP only; the totals of a UDP session are read while its counters still move.
- Pipe.Pipe: nobody else uses the recorder during the call, which `Relay.dfy` makes up for; idle deadlines, closing both connections after an error and the time of last activity are not modelled.
- RuleObjects.Rule.Configure: a rule holds its recorder as a value, on which the operations of `Store.dfy` work; that they are the operations of the recorder object is proved in `Recorder.dfy`, aliasing between rules and their recorders is not modelled.
- RuleObjects.Rule.Stop: closes the listener; what Stop does to connections and sessions is in `Sessions.dfy`.
- SessionTable.Table.RemoveSession: sessions are values told apart by their connection number, where the source compares pointers; closing a session twice is closing it once.
- Sessions.LimitIsNeverExceeded: MaxConns is fixed during the run; lowering it does not end sessions that are there.
- Health.FailoverCannotFlap: one specification, from a new rule on; an update may change the thresholds without touching the streaks.
- Metrics.RatesNeverExceedTraffic: rates are real numbers; the rounding of 64-bit floating point is not modelled.
- Profile.CombineRules: stops before the normalisation, with which `Profile.MergeProfileRules` goes on.
- DetectionRuns.MatchedIffInStream: the configuration does not change while the session lasts.
- SessionStop.EveryStepBringsStopNearer: begins when the datagram loop has ended, which it does after the datagram it is treating, since its socket is closed; that a dial or a write returns is up to the network.
- 64-bit counters are unbounded integers; tokens, connection numbers and finding numbers never wrap around.
- Time stamps and excerpts of records, chunks and findings, severities, event journal, error texts, hooks, and the copies that List, Get and Snapshot hand out.
- Directions other than in and out handed to a writer, which the source ignores.
- The names of detectors and the texts of their modes, directions and scopes, which the source also checks.
- The expiry of detector sessions after five minutes, and the bounded queue in front of the detector.
- ACL matching, scanning, HTTP handlers, authorisation, configuration files, random identifiers and the front end: input and output, or easy.
