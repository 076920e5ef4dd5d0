# A verified model of the monitoring server

The server watches clusters, NAS units and PLCs, draws them as a topology, notifies operators about critical
conditions and keeps its settings, credentials and event history on disk. This project models the parts of it
that are state machines or transformations, in the form the program gives them (classes where it updates
fields, functions where it computes values), and proves what those parts are for.

| part | modules |
|---|---|
| notification queue | `Alerting`, `AlertingReconcile`, `AlertingWorld`, `AlertingSafety`, `AlertingBounds`, `AlertingTight`, `AlertingPolicy`, `AlertingEngine` |
| fault latches of the device pollers, and their way into the queue | `Devices`, `EdgeFaults`, `EndToEnd` |
| bounded event log | `EventLine`, `EventLog`, `EventLogRuns` |
| configuration file, backup file and managed credentials | `Json`, `Secrets`, `ConfigStore`, `Admin` |
| topology graph and status roll-up | `TopologyStatus`, `TopologyForest`, `TopologyRollup`, `TopologyGraph`, `TopologyDrawing`, `TopologyEdges`, `TopologyPlans`, `TopologyOrder`, `TopologyLinks`, `TopologyStatuses`, `TopologyBuild`, `TopologyFleet` |
| SNMP messages in BER | `Ber`, `BerCode`, `Snmp`, `SnmpTraps`, `SnmpCode` |
| configuration export and import | `Backup`, `BackupIdentity` |

How the parts are put together:

- **Notification queue.** `Alerting` says what one scan does to conditions and deliveries. `AlertingWorld` turns
  the engine into a state machine: a world holds the state in memory, the state on disk, the batch being sent,
  the requests under way (at most eight, finishing in any order) and a history of what was queued, sent, accepted
  and recorded. Its actions are scan, claim, skip, stop, finish, end of scan, settings update and crash with
  reload; every write of the state may succeed, fail, or succeed and be reported as failed. `AlertingSafety` and
  `AlertingBounds` prove properties of all runs, and `AlertingPolicy` says in plain terms when a record is sent, sent
  again, held back or dropped. `AlertingEngine.Engine` is the engine itself, with loops over its
  maps, and every method is proved to perform exactly one action of the state machine. Time is an integer number
  of nanoseconds and may go backwards.
- **Pollers.** A poller's life is a sequence of rounds with arbitrary readings. `EndToEnd` joins it to runs of the
  engine: each scan sees the device as some round of the window published it, next to arbitrary other devices.
- **Event log.** Each operation is a function from a log and the outcomes of its file operations to a new log;
  `EventLog.EventFile` performs it on fields, and `EventLogRuns` proves properties of all sequences of additions,
  audit records and restarts. `EventLine` covers how one event becomes one line.
- **Configuration store.** `ConfigStore.Store` performs the file steps one by one. Its ghost field `trace` records
  the disk after each step, which is what a crash there would leave; `Valid()` says that every recorded moment
  resolves its references. Outcomes of file steps are chosen arbitrarily, and the ghost field `failures` counts those
  that went wrong: without any, an update that may be carried out is carried out whole.
- **Topology.** `TopologyRollup` defines the roll-up recursively over parents, and `TopologyGraph.Graph` computes it
  in one pass. `TopologyPlans` gives, for every input, the list of elementary steps that draw its graph;
  `TopologyDrawing` and `TopologyEdges` say which nodes, edges and statuses running such a list amounts to, and
  `TopologyBuild` proves that the builders do exactly that, whatever the input; `TopologyStatuses` reads the statuses
  of the parts off the input. `TopologyOrder`, `TopologyLinks` and
  `TopologyFleet` show when the result has the level order the final pass relies on, and that its edges are those planned.
- **SNMP.** `Ber` and `Snmp` say what a message means, `SnmpTraps` relates writing and reading, and `BerCode` and
  `SnmpCode` are the byte loops and cursor readers, proved equal to those meanings.

Results that differ from what a reader of the program or of its comments might expect:

- The number of attempts of a delivery can exceed the configured maximum, by up to the number of crashes and no
  more: a claim is on disk before its request, and a process that dies in between uses it up. Under any
  accepted settings and for any number of crashes some run gets there (`AlertingTight.BoundIsReached`), so the
  maximum holds exactly without crashes.
- A reactivated condition need not start later than before when the clock stands still
  (`AlertingReconcile.StandingClockRepeats`); its identity is new nevertheless
  (`AlertingReconcile.NewActivationIsNew`), and when it starts later is known exactly
  (`AlertingReconcile.ReactivationMovesOn`).
- An audit record whose write was reported as failed is in the log after reopening exactly if the file had been
  replaced nevertheless (`EventLogRuns.FailedAuditReturns`); later writes of the same process remove it
  (`EventLogRuns.FailedAuditStaysOut`).
- Taking back a notification update always restores what the settings mean, but the document itself is the old one
  exactly if that held no plaintext secret; and if the final directory sync of the checkpoint fails, clean-up is
  skipped and the rejected credential stays (`Admin.PutNotifications`).
- Objects of two kinds sharing an identifier can break the level order the roll-up depends on, and need not: the
  exact condition is `TopologyOrder.ClusterIsTreeIff`, an input that breaks it `TopologyOrder.SharedIdBreaksOrder`.
  With one kind per identifier it always holds.
- An OBJECT IDENTIFIER whose second arc is 40 or more does not survive writing and reading, and the sum of its
  first two arcs is computed modulo 2^64 (`Ber.OidRoundTrip`, `Ber.WrappedArcIsAccepted`).
- The comment above the import merge (`internal/httpapi/backup.go:75-76`) says that array elements are matched by key, name or
  address; the code binds the key to all endpoint addresses by joining them to one text. An import can therefore
  fill a secret from an element at another address, exactly if that text can also be read in another way
  (`BackupIdentity.SecretsMoveIff`): a key with an address reads like a longer key, and a key that contains
  what looks like an address reads like a shorter one with it.
- A text-only event always fits its line once the description is gone, with four bytes to spare in the worst case
  (`EventLine.EventsAlwaysFit`).

## Model

| member | source | states |
|---|---|---|
| AlertingReconcile.FirstFreeIsFirst | internal/alerting/engine.go:391-407 | The collision loop ends, and ends at the first start time from its jump target on that no retained delivery of the key uses |
| AlertingReconcile.NewActivationIsNew | internal/alerting/engine.go:376-407 | A new activation's identity differs from every retained delivery of that key, of any kind, condition pruned or not |
| AlertingReconcile.ReactivationMovesOn | internal/alerting/engine.go:376-407 | A condition that comes back starts strictly later than its earlier activation exactly if, without a collision, the start its signal asks for is at most the end or after the start of that activation, and, with one, no start time up to there is free |
| AlertingReconcile.StandingClockRepeats | internal/alerting/engine.go:381-388 | An input for which it does not: on a host in maintenance, two activations while the clock stands still give the next one the start time it had before |
| AlertingReconcile.DeliveriesAfter | internal/alerting/engine.go:370-477 | After reconciling, every delivery is an old one with its attempts, times and verdicts untouched, or was queued by this scan and is fresh |
| AlertingReconcile.QueuedAreNew | internal/alerting/engine.go:260-270 | Queueing never resets an identity that is still recorded |
| AlertingReconcile.QueuedBehindDelivered | internal/alerting/engine.go:417-445 | An escalation or recovery is queued only for the activation whose critical message is recorded as delivered |
| AlertingReconcile.ConditionAfter | internal/alerting/engine.go:370-453 | What becomes of each condition: activated, ended, kept or dropped, in all cases |
| AlertingReconcile.OnlyAuthoritativeAbsenceRecovers | internal/alerting/engine.go:427-445 | A scan ends an active condition if and only if its key is absent and the fleet or its host is ready to confirm recovery |
| AlertingReconcile.SignalsAreQueued | internal/alerting/engine.go:370-426 | After a scan every authoritative signal outside maintenance is active with its critical record, a fresh one if the activation is new |
| AlertingReconcile.MaintenanceQueuesNothing | internal/alerting/engine.go:370-426 | No alarm is queued for a host in maintenance or from an uncertain signal, and no escalation for an acknowledged one |
| AlertingReconcile.PendingAlarmsAreLive | internal/alerting/engine.go:454-460 | After reconciling, every undelivered critical or escalation belongs to the current activation of an active condition |
| AlertingReconcile.ActiveRecordsArePinned | internal/alerting/engine.go:461-463 | Records of an active activation are kept unchanged, however long it stays active |
| AlertingReconcile.RecoveryFollows | internal/alerting/engine.go:437-441 | A notified alarm that ends with authority has its recovery queued and still pending after pruning, provided no active condition has been answered yet |
| AlertingReconcile.ReconcileKeepsUnanswered | internal/alerting/engine.go:376-445 | A scan leaves no active condition with a recovery record of its own activation, whatever start times collide |
| AlertingReconcile.RecoveriesEndConditions | internal/alerting/engine.go:427-441 | A recovery is queued only by the scan that ends its condition with authority |
| AlertingReconcile.SilentRecovery | internal/alerting/engine.go:442-444 | An alarm nobody was told about ends without a trace: its record goes and no recovery is queued |
| AlertingSafety.StepKeepsInv | internal/alerting/engine.go:339-587 | Every action keeps the invariant: counters cover requests, recorded successes happened and are honoured, the requests under way are claimed on disk, and no active condition has been answered, in memory or on disk |
| AlertingSafety.RunsKeepInv | internal/alerting/engine.go:339-587 | The invariant holds in every world of every run, whatever fails and crashes |
| AlertingSafety.ClaimsAreDurable | internal/alerting/engine.go:503-545 | At any time at most eight requests are under way, each with its claim already on disk |
| AlertingSafety.AttemptsCoverRequests | internal/alerting/engine.go:532-546 | In every interleaving the attempt counter on disk is at least the number of requests sent since the delivery was queued or reset |
| AlertingSafety.HistoryIsLawful | internal/alerting/engine.go:414-445 | Every request ever sent was for an unsettled delivery under a larger counter, and every escalation or recovery ever queued came after its critical message was accepted |
| AlertingSafety.EveryAlarmIsAnswered | internal/alerting/engine.go:427-445 | In every run, a scan that ends a notified condition queues its recovery, which is pending afterwards |
| AlertingSafety.SuccessIsFinal | internal/alerting/engine.go:503-560 | Once a success is on disk, the delivery is not sent again in any continuation unless its record was dropped and queued anew |
| AlertingSafety.SuccessIsFinalInLife | internal/alerting/engine.go:546-560 | Within one life of the process, once a request was accepted, saved or not, no other one is started for the delivery unless it is queued anew |
| AlertingSafety.RetainedIsNotRequeued | internal/alerting/engine.go:260-263 | No action queues anew what is still held in memory |
| AlertingBounds.StepKeepsBounded | internal/alerting/engine.go:532-580 | With fixed settings every action keeps all counters within the maximum plus the crashes so far, and leaves every open record an attempt |
| AlertingBounds.RunsStayBounded | internal/alerting/engine.go:532-580 | That bound over whole runs |
| AlertingBounds.AttemptsAreBounded | internal/alerting/engine.go:566-567 | A delivery is attempted at most as often as configured, plus once per crash |
| AlertingBounds.ExhaustedIsDead | internal/alerting/engine.go:566-567 | Without crashes, a delivery that used its attempts up without success is a dead letter once its request has ended |
| AlertingTight.BoundIsReached | internal/alerting/engine.go:532-567 | For any settings that are on and allow an attempt, and every number of crashes, there is a run with that many crashes in which a delivery is attempted as often as configured and that many times more, every retry after its full delay |
| AlertingTight.MaximumNeedsNoCrash | internal/alerting/engine.go:532-567 | So under any settings the program accepts, the configured maximum holds in all runs with a given number of crashes if and only if that number is zero |
| AlertingBounds.DelayDoubles | internal/alerting/engine.go:570-577 | Each retry delay is twice the one before, capped at an hour, and never shrinks |
| AlertingBounds.DoublingStaysLow | internal/alerting/engine.go:570-573 | Every value the doubling loop reaches is below two hours, so it never overflows |
| AlertingBounds.ConditionsEndWithAuthority | internal/alerting/engine.go:427-438 | Over all actions, a condition turns inactive only in a scan with its key absent and readiness given, or by a crash back to a file where it was inactive |
| AlertingBounds.StepKeepsActive | internal/alerting/engine.go:427-433 | Each action that sees the key keeps its condition active under the same activation, unless the process crashes to a file where it is not |
| AlertingBounds.LifeKeepsActive | internal/alerting/engine.go:427-433 | Within one life of the process, a condition whose key every scan sees stays active under the same activation, saved or not |
| AlertingBounds.WatchedStaysActive | internal/alerting/engine.go:427-433 | A condition whose key every scan of a window sees stays active in memory and on disk through the window, crashes included |
| AlertingPolicy.RetriesWait | internal/alerting/engine.go:489-580 | Over runs: after a refusal, no later scan of the same life sends the record again unless it was reset or queued anew, but for a passing refusal with attempts left, and not before the base delay doubled for each earlier attempt, at most an hour, has gone by |
| AlertingPolicy.RefusalMarks | internal/alerting/engine.go:561-579 | A refusal kills the record at once if it is permanent or the attempts are used up, and otherwise sets the time of the next one |
| AlertingPolicy.ReadyIsDue | internal/alerting/engine.go:487-497 | The converse: an open record whose time has come and that may go out is in the batch unless that has its 32 records, none of them younger |
| AlertingPolicy.DueIsReady | internal/alerting/engine.go:487-492 | A scan sends nothing that is delivered, dead or not yet due |
| AlertingPolicy.DueMayGo | internal/alerting/engine.go:319-337 | Nor anything of an uncertain or certainly absent signal, for a host in maintenance, or an escalation that is acknowledged or suppressed |
| AlertingPolicy.ClaimsFollowPolicy | internal/alerting/engine.go:513-545 | A claim starts its request if and only if the policy read at that moment lets it go out and the counter was saved |
| AlertingPolicy.EscalationsAreDue | internal/alerting/engine.go:411-424 | An escalation is queued if and only if it is not recorded and every condition holds: a trusted, unacknowledged signal outside maintenance, 4 or 24 hours configured and gone by, the critical message delivered |
| AlertingPolicy.UpdatesRevive | internal/alerting/engine.go:206-221 | A saved change of settings brings back exactly the undelivered dead letters, and only if the address changed or delivery was switched on |
| AlertingPolicy.FirstActivation | internal/alerting/engine.go:370-410 | A signal nothing is recorded of opens a condition that starts when it says, but not in the future |
| AlertingPolicy.ConditionsAreRetained | internal/alerting/engine.go:449-453 | An ended condition is kept exactly 30 days |
| AlertingPolicy.RecordsAreRetained | internal/alerting/engine.go:454-477 | A record of an ended activation is kept if and only if it is a recovery or was delivered and neither its end nor its delivery is more than 30 days ago |
| AlertingEngine.InsertKeepsOrder | internal/alerting/engine.go:487-497 | Inserting a due delivery keeps the batch duplicate-free and oldest first |
| AlertingEngine.IngestStep | internal/alerting/engine.go:371-425 | Handling one more signal extends the simultaneous meaning of the signals handled before, so their order does not matter |
| AlertingEngine.RecoverStep | internal/alerting/engine.go:427-445 | The same for ending one more absent condition |
| AlertingEngine.PruneStep | internal/alerting/engine.go:454-477 | The same for pruning one more delivery |
| AlertingEngine.Engine.constructor | internal/alerting/engine.go:152-182 | A new engine is what the file holds, with nothing under way |
| AlertingEngine.Engine.Persist | internal/alerting/engine.go:705-720 | Writes memory to disk, or not, or both writes it and reports failure; success is reported only for a completed write |
| AlertingEngine.Engine.FreshActivation | internal/alerting/engine.go:391-407 | The loop computes the first free start time |
| AlertingEngine.Engine.Enqueue | internal/alerting/engine.go:260-270 | Adds the record unless its identity exists and touches nothing else |
| AlertingEngine.Engine.Activate | internal/alerting/engine.go:376-413 | The condition of a signal: the running activation refreshed, or a new one with a new identity |
| AlertingEngine.Engine.IngestOne | internal/alerting/engine.go:375-424 | Activation, critical and escalation of one signal, all other keys untouched |
| AlertingEngine.Engine.IngestSignals | internal/alerting/engine.go:370-426 | The loop over signals in any order yields their simultaneous meaning |
| AlertingEngine.Engine.RecoverAbsent | internal/alerting/engine.go:427-445 | The loop over conditions ends exactly the absent ones, with their recoveries |
| AlertingEngine.Engine.DropExpiredConditions | internal/alerting/engine.go:449-453 | Drops exactly the conditions inactive longer than the retention time |
| AlertingEngine.Engine.DropExpiredDeliveries | internal/alerting/engine.go:454-477 | Drops obsolete and expired records, stamps those that became inactive, and keeps the rest |
| AlertingEngine.Engine.CollectDue | internal/alerting/engine.go:487-497 | The batch: due, allowed, distinct, oldest first, cut to the batch size without passing over an older one; `AlertingPolicy.DueIsReady`, `DueMayGo` and `ReadyIsDue` say in plain terms what that means |
| AlertingEngine.Engine.ReconcileState | internal/alerting/engine.go:370-477 | The four loops together are one reconciliation |
| AlertingEngine.Engine.Scan | internal/alerting/engine.go:339-502 | A scan is the scan action of the state machine, with any policy, clock and write outcome |
| AlertingEngine.Engine.Skip | internal/alerting/engine.go:526-531 | Work the policy forbids costs neither attempt nor delay |
| AlertingEngine.Engine.Claim | internal/alerting/engine.go:513-541 | A request starts only after its counter is on disk; a failed claim is undone and ends the batch |
| AlertingEngine.Engine.Stop | internal/alerting/engine.go:508-525 | A cancelled batch starts no further request |
| AlertingEngine.Engine.BackOff | internal/alerting/engine.go:570-576 | The doubling loop computes base times 2 to the attempts before, at most an hour |
| AlertingEngine.Engine.Finish | internal/alerting/engine.go:546-585 | Records a result: success, dead letter or next attempt, keeping it in memory when the write fails |
| AlertingEngine.Engine.EndScan | internal/alerting/engine.go:503-505 | A scan ends only after all its requests have |
| AlertingEngine.Engine.UpdateConfig | internal/alerting/engine.go:194-233 | A new destination or re-enabling revives dead letters; a failed write leaves settings and deliveries as they were |
| AlertingEngine.Engine.Restart | internal/alerting/engine.go:645-672 | A crash loses memory and requests under way and resumes from the file |
| Devices.DeviceAlerts | internal/alerting/devices.go:48-83 | The critical alerts of a device as signals, in order, each with its key and authority |
| Devices.DeviceSignals | internal/alerting/devices.go:24-87 | The signals of all devices, in order |
| Devices.CurrentHasEveryKey | internal/alerting/engine.go:309-315 | No signal's key is lost when signals are indexed by key |
| Devices.AlertReachesEngine | internal/alerting/devices.go:48-83 | A critical alert of a listed device is among the keys the engine sees, whatever else is listed |
| Devices.AlertIsKnownBy | internal/alerting/devices.go:51-83 | By host, name, text and time, with the name standing in for an empty text |
| Devices.EdgeAuthority | internal/alerting/devices.go:73-79 | Whatever else is reported, the engine trusts the key of an edge alert exactly if the worker is ready and this round observed it, given that host and key have no other source |
| Devices.OfflineReachesEngine | internal/alerting/devices.go:36-47 | A host is signalled offline if and only if a published device of it is down, and that signal is trusted exactly if the host is ready and, for an edge host, the worker |
| Devices.AckTimeIs | internal/alerting/devices.go:94-101 | The same time with T or blank, with or without Z, is one identity |
| EdgeFaults.NasPoller.ObserveOne | internal/edge/nas.go:102-166 | One reading sets, keeps or clears one latch |
| EdgeFaults.NasPoller.Observe | internal/edge/nas.go:102-166 | Every object is judged by its own reading; completeness and the set of bad objects are exact |
| EdgeFaults.NasPoller.Poll | internal/edge/nas.go:71-256 | A round updates inventory and latches and publishes the device with every latched fault, and does by the numbers read what `NasShows` lists: disks 3 to 5, RAID 11 and 12 and hardware 2 set a fault and are published as observed, 1 (a disk also 2) clears it, anything else leaves it; RAID 2 to 10 only degrade; the state alert is missing exactly if the inventory is known and all of it read good |
| EdgeFaults.ObservedIs | internal/edge/nas.go:102-166 | The latch of each object after a round depends on its own reading alone |
| EdgeFaults.RoundKeepsInventory | internal/edge/nas.go:298-349 | The inventory never shrinks or outgrows its limits, and always covers every latched fault |
| EdgeFaults.RoundLatches | internal/edge/nas.go:102-166 | Whatever else a round does, including rediscovery, each latch moves by its own verdict only |
| EdgeFaults.LatchedIsPublished | internal/edge/nas.go:268-286 | Every latched fault is published, at most 21 alerts exist, so the cap of 25 drops none, and the observed flag is right |
| EdgeFaults.CriticalIsLatched | internal/edge/nas.go:102-166 | An explicit bad reading leaves a latched fault, in any life of the poller |
| EdgeFaults.FaultIsKept | internal/edge/nas.go:102-166 | A latched fault keeps its text and times until an explicit good reading of the same object |
| EdgeFaults.FaultIsPublished | internal/edge/nas.go:268-286 | Every round until then publishes that very fault, offline rounds included |
| EdgeFaults.JudgedByNumber | internal/edge/nas.go:60-68 | Which numbers count as bad, as good and as a named fault, object by object, and the name and text of each fault |
| EdgeFaults.RoundShows | internal/edge/nas.go:71-256 | What a round does and publishes, from the numbers read, for every state of the poller |
| EdgeFaults.GoodMeansOk | internal/edge/nas.go:183-186 | A NAS is not degraded if and only if its inventory is known and every object of it read good |
| EdgeFaults.InventoryShows | internal/edge/nas.go:298-349 | A refresh finds names up to the first empty one, at most 12 disks and 4 RAID sets, and never takes fewer than were known |
| EdgeFaults.PlcPoller.Poll | internal/edge/plc.go:38-192 | A round latches or clears the two faults and publishes them, by what was read (`PlcShows`): fatal and CIP major set, their readable absence clears, an unreadable round or a missing CIP identity leaves alone; nothing is published exactly if everything was read and good |
| EdgeFaults.PlcFaultIsKept | internal/edge/plc.go:161-192 | A fatal or CIP major fault stays latched, unchanged, until its own explicit good reading |
| EdgeFaults.PlcFaultIsPublished | internal/edge/plc.go:63-68 | Every round until then publishes it, unreadable rounds included |
| EdgeFaults.PlcRoundShows | internal/edge/plc.go:38-192 | What a PLC round does and publishes, from what was read, for every state of the poller |
| EndToEnd.PublishedFaultIsSeen | internal/alerting/devices.go:48-83 | A published fault reaches the engine under the key fixed when it was latched |
| EndToEnd.OnlyObservedFaultsActivate | internal/alerting/devices.go:73-79 | A fault that is not active becomes active in a scan if and only if the edge worker is ready and observed it in this very round; latched evidence alone never alarms anew |
| EndToEnd.NasFaultIsWatched | internal/edge/nas.go:268-286 | While no good reading comes, every scan of the engine sees the same key |
| EndToEnd.NasFaultStaysActive | internal/alerting/engine.go:427-433 | From a round that reads a fault's number (disk 3 to 5, RAID 11 or 12, hardware 2) until the next good number of the object, the fault's condition, once active, never becomes inactive and keeps its activation while the process lives, whatever its state writes do; once it is on disk too, crashes of the engine do not end it either |
| EndToEnd.PlcFaultIsWatched | internal/edge/plc.go:161-192 | The same key is seen by every scan while a PLC fault is latched |
| EndToEnd.PlcFaultStaysActive | internal/alerting/engine.go:427-433 | The same from a fatal error or CIP major fault read until the next readable round without it |
| EventLine.TruncateText | internal/poller/events.go:195-210 | The loop cuts at the longest valid beginning and marks the cut |
| EventLine.TruncateFits | internal/poller/events.go:195-210 | A cut text fits its limit, fitting texts are untouched, and cutting again changes nothing |
| EventLine.TruncateIs | internal/poller/events.go:195-210 | A text over its limit becomes its longest valid beginning that leaves room for the three bytes of the mark, and the mark |
| EventLine.NormalisedIsLimited | internal/poller/events.go:217-235 | Every text of a normalised event is within its limit |
| EventLine.NormalisingKeeps | internal/poller/events.go:217-235 | An event is unchanged if and only if its texts are within 8192, 2048, 512, 64, 32 and 64 bytes, and its audit texts within theirs |
| EventLine.MarshalEventLine | internal/poller/events.go:240-269 | The shortening loop computes the event as written and whether it fits |
| EventLine.EnoughRounds | internal/poller/events.go:242-267 | Given rounds enough to empty the texts, an event is written if and only if it fits with them empty |
| EventLine.RefusedOnlyForSize | internal/poller/events.go:240-269 | The 128 rounds never decide: a normalised event is refused exactly if its audit texts alone leave no room |
| EventLine.WrittenIsStable | internal/poller/events.go:286-295 | What was written once fits a line, within its limits, and is written the same in every later replacement |
| EventLine.ShortenedInOrder | internal/poller/events.go:241-261 | A text is shortened only when all texts before it in the order are gone |
| EventLine.EventsAlwaysFit | internal/poller/events.go:370-395 | Every ordinary event gets a line, whatever its texts, and loses nothing but description |
| EventLine.ReadsBackTheSame | internal/poller/events.go:158-168 | After being read back a written event is the same: an ordinary one always, an audit event from whatever file exactly if it fits with its kind left alone |
| EventLine.KindSurvives | internal/poller/events.go:241-261 | The kind is left alone exactly if the event fits once description, label and host are gone |
| EventLine.AuditIsWrittenWhole | internal/poller/events.go:438-461 | An accepted audit record is written in full, neither cut nor shortened |
| EventLine.LongAuditIsRefused | internal/poller/events.go:262-268 | Audit texts within their byte limits but past the accepted number of characters can be refused |
| EventLog.EventFile.constructor | internal/poller/events.go:68-85 | Opens the log: what could be read, or a blocked empty ring |
| EventLog.EventFile.ScanLines | internal/poller/events.go:130-172 | The backwards loop finds the newest events and notices junk and leftovers |
| EventLog.EventFile.LoadFile | internal/poller/events.go:97-182 | Reads the newest part of the file and replaces it if anything in it was not in order |
| EventLog.EventFile.CompactFile | internal/poller/events.go:271-324 | Replaces the file by the ring, in three outcomes, with the tracked size |
| EventLog.EventFile.AppendLine | internal/poller/events.go:326-351 | Appends any part of the line and reports success only for the whole of it |
| EventLog.EventFile.RecoverFile | internal/poller/events.go:353-366 | Re-reads a blocked history and puts the buffered ring behind it |
| EventLog.EventFile.Store | internal/poller/events.go:383-395 | Chooses recovery, replacement or append |
| EventLog.EventFile.AddEvent | internal/poller/events.go:370-420 | Always keeps the event in the ring and tracks whether the file follows |
| EventLog.EventFile.RecordAudit | internal/poller/events.go:428-493 | Keeps the record only if the replacement succeeded |
| EventLogRuns.ScanFindsNewest | internal/poller/events.go:130-177 | Reading backwards finds exactly the newest events of the file, in their order |
| EventLogRuns.RingFits | internal/poller/events.go:68-78 | A full ring of maximal lines fits the file limit, so replacing never fails for size |
| EventLogRuns.CompactedReopens | internal/poller/events.go:271-324 | A replaced file reopens to exactly the ring |
| EventLogRuns.LoadReopens | internal/poller/events.go:97-182 | Loading yields what the file holds and leaves a file that yields it again, even if replacing it failed |
| EventLogRuns.LoadsTheEnd | internal/poller/events.go:97-182 | After a load the ring is the newest events of exactly the pieces that begin behind the reading position, all of them when the file is within its limit and one line more |
| EventLogRuns.NewestAreRestored | internal/poller/events.go:111-177 | Of a file of any size, the newest events are restored whole if they lie in its last part of the size limit |
| EventLogRuns.AppendSyncs | internal/poller/events.go:326-351 | A successful append leaves ring and file in agreement, newest event included |
| EventLogRuns.RecoverSyncs | internal/poller/events.go:353-366 | Recovery merges history and ring in order, or leaves the history as readable as before |
| EventLogRuns.WrittenSyncs | internal/poller/events.go:383-395 | Any successful write leaves ring and file in agreement |
| EventLogRuns.AddKeepsInv | internal/poller/events.go:370-420 | An addition keeps the invariant and succeeds exactly if the log is then neither dirty nor blocked |
| EventLogRuns.AuditKeepsInv | internal/poller/events.go:428-493 | An audit record keeps the invariant, accepted or not |
| EventLogRuns.StepKeepsInv | internal/poller/events.go:97-493 | Every operation keeps it under every fault |
| EventLogRuns.RunsKeepInv | internal/poller/events.go:97-493 | So does every sequence of them |
| EventLogRuns.OpeningEstablishesInv | internal/poller/events.go:68-85 | Opening any file, torn, oversized or unreadable, establishes it |
| EventLogRuns.RingAndFileAgree | internal/poller/events.go:97-420 | After any operations the ring is the newest accepted events; unblocked, the tracked size is within the limit; and unless dirty or blocked, reopening the file yields exactly the ring |
| EventLogRuns.SuccessRestores | internal/poller/events.go:384-415 | The first success after any failures restores the agreement, with nothing lost or doubled |
| EventLogRuns.TornAppendsDamageNothing | internal/poller/events.go:326-351 | In every run, an append torn anywhere damages no earlier event, and adds its own exactly if all of it but the newline was written |
| EventLogRuns.BlockedHistoryIsSafe | internal/poller/events.go:353-366 | While blocked, no operation changes what the unread history would yield |
| EventLogRuns.RecoveryMerges | internal/poller/events.go:353-366 | Unblocking yields the unread history, then everything added since, cut to the limit |
| EventLogRuns.FailedAudit | internal/poller/events.go:428-493 | A refused record leaves ring and history alone, and what the file then yields is exact for each outcome |
| EventLogRuns.FailedAuditReturns | internal/poller/events.go:471-486 | After reopening, a failed record is there if and only if its replacement was done and reported as failed |
| EventLogRuns.FailedAuditStaysOut | internal/poller/events.go:423-427 | No later operation of the process brings a failed record back, and the next success removes it from the file |
| Secrets.ReferenceRoundTrip | internal/config/secretrefs.go:218-227 | A written reference is read as the name it was written for |
| Secrets.ManagedMeans | internal/config/secretrefs.go:135-145 | A name is managed exactly if it has the prefix and ends in a dot and 16 hex digits |
| Secrets.SecretsAreBelow | internal/config/secretrefs.go:412-467 | The secrets found under a path all lie below it and are not empty |
| Secrets.OneSecretPerPlace | internal/config/secretrefs.go:412-467 | A place holds one secret |
| Secrets.ProtectRefs | internal/config/secretrefs.go:412-467 | Protection adds no reference but those to the names it created |
| Secrets.ProtectKeepsRefs | internal/config/secretrefs.go:412-467 | It drops no reference |
| Secrets.NamesAreReferenced | internal/config/secretrefs.go:412-467 | Every name it created is referenced |
| Secrets.ProtectKeepsMeaning | internal/config/secretrefs.go:229-260 | Resolving the protected document gives what resolving the original gave |
| Secrets.ProtectIsComplete | internal/config/secretrefs.go:412-467 | No plaintext secret is left |
| Secrets.NothingToProtect | internal/config/secretrefs.go:412-467 | A document without plaintext secrets is untouched |
| Secrets.ProtectedPlaces | internal/config/secretrefs.go:366-467 | Place by place: exactly the plaintext under the fifteen secret names, outside comments, becomes a reference, and every other value stays |
| Secrets.NothingInPlain | internal/config/secretrefs.go:412-467 | In a protected document every text under those names is empty or a reference |
| Secrets.PlacesStay | internal/config/secretrefs.go:412-467 | Protection adds and removes no place |
| Secrets.ProtectKeepsWellFormed | internal/config/secretrefs.go:412-467 | A protected document has no malformed reference that was not there before |
| Secrets.RevealNeedsOnlyRefs | internal/config/secretrefs.go:147-175 | The meaning of a document depends on the credentials it references and no others |
| ConfigStore.FinalIsFaithful | internal/config/secretrefs.go:474-520 | The document written under the policy means the requested one, resolves, and holds no plaintext if references are required |
| ConfigStore.PolicyDecides | internal/config/secretrefs.go:474-488 | Without a policy, or with an empty one, nothing is written in plain under a secret name; "allow-plaintext" writes the document as asked for; any other text is refused |
| ConfigStore.RemovalIsSafe | internal/config/secretrefs.go:177-216 | Removing names that neither the live document nor a kept backup needs leaves a safe disk |
| ConfigStore.Store.constructor | internal/config/persist.go:52-66 | A store starts on a safe disk |
| ConfigStore.Store.WriteCredential | internal/config/secretrefs.go:35-49 | A credential file appears with its value, or not at all |
| ConfigStore.Store.RemoveCredential | internal/config/secretrefs.go:177-190 | A managed credential goes, or stays |
| ConfigStore.Store.ProtectValue | internal/config/secretrefs.go:412-467 | Walking a value creates one credential per plaintext secret, and at every moment in between the disk only gains credentials |
| ConfigStore.Store.ProtectItems | internal/config/secretrefs.go:458-465 | Over all elements of an array, in order, the same as for one value |
| ConfigStore.Store.ProtectFields | internal/config/secretrefs.go:413-457 | Over all fields of an object, the same, whatever the order |
| ConfigStore.Store.ProtectOne | internal/config/secretrefs.go:420-456 | A secret string is stored and replaced by its reference; a malformed reference stops the walk |
| ConfigStore.Store.RemoveNames | internal/config/secretrefs.go:177-190 | Only the given managed names go, at every moment |
| ConfigStore.Store.Cleanup | internal/config/secretrefs.go:192-216 | Only managed names outside the kept set go, and on success all of them have |
| ConfigStore.Store.WriteBackup | internal/config/persist.go:115-181 | The backup is replaced in one of three outcomes |
| ConfigStore.Store.WriteLive | internal/config/persist.go:115-171 | So is the live file |
| ConfigStore.Store.Prepare | internal/config/persist.go:202-208 | The document to write resolves and means the requested one; every earlier credential exists at every moment |
| ConfigStore.Store.Install | internal/config/persist.go:209-248 | Refused leaves the live document, committed replaces it; needed credentials exist at every moment, and clean-up leaves only referenced ones |
| ConfigStore.Store.Prune | internal/config/secretrefs.go:192-216 | Clean-up against a set that covers both files is safe at every moment |
| ConfigStore.Store.Withdraw | internal/config/persist.go:205-216 | Undoing a refused update removes only what it had added |
| ConfigStore.Store.Rmw | internal/config/persist.go:183-248 | Under any failures and a crash at any moment, every managed reference of the live document has its credential and so has a backup's that was written; a refused update leaves the document, a committed one means what was asked for, and a completed clean-up leaves no managed credential that neither document references. If no file step fails, an update is refused only for what it asks (none, an unknown policy, a malformed reference), and otherwise committed, synced, backed up and cleaned up |
| ConfigStore.Store.CompareAndReplace | internal/config/persist.go:297-310 | The same for replacing a document, which happens only if the expected one is still there, and then, if no file step fails, completely |
| Admin.RestoredIs | internal/httpapi/admin.go:223-242 | Putting the old section back keeps the policy and restores all old references |
| Admin.RestoredSecrets | internal/httpapi/admin.go:223-242 | It brings back no plaintext that was not there before, and the very document if there was none |
| Admin.RestoredReads | internal/httpapi/admin.go:223-242 | The restored document means what the old one meant |
| Admin.RestoreCanStart | internal/httpapi/admin.go:223-242 | The restored document always resolves, so the restoring update is not refused for a missing credential |
| Admin.RestoredIsAccepted | internal/httpapi/admin.go:223-242 | A restored document is not refused for its contents if the old one would not have been |
| Admin.TakingBack | internal/httpapi/admin.go:223-257 | The facts a roll-back rests on, from the disk an update leaves |
| Admin.Checkpoint | internal/httpapi/admin.go:244-257 | A checkpoint changes nothing but credentials and the backup: backed up, the backup is the live document; synced and cleaned up, exactly the referenced managed credentials remain. If no file step fails it is committed whole |
| Admin.Restore | internal/httpapi/admin.go:223-257 | Restore and checkpoint leave a protected document that means the given one, with the backup the same document if the checkpoint backed it up, else the rejected one if the restore did. If no file step fails both are committed whole |
| Admin.PutNotifications | internal/httpapi/admin.go:347-364 | A rejected update that is taken back leaves settings that mean what they did, the same document exactly if that held no plaintext, a backup that no longer points at the rejected generation if the checkpoint backed up, and after a completed clean-up exactly the managed credentials it references: the new secret is gone, the old ones never were. If no file step fails, an accepted update is accepted, and a rejected one is rolled back with restore and checkpoint committed whole |
| TopologyStatus.StatusMax | internal/topology/status.go:57-72 | The loop returns a worst status of the list, unknown if it is empty |
| TopologyStatus.EffectiveIsMonotone | internal/topology/propagate.go:22-37 | A worse own status or a worse alert never makes a node look better |
| TopologyStatus.CombineIsWorst | internal/topology/propagate.go:104-122 | A parent is exactly the worst of itself and its children, a critical child counting as degraded where a healthy twin absorbs it |
| TopologyStatus.CombineIsMonotone | internal/topology/propagate.go:104-122 | Worse children never make a better parent, although damping depends on healthy siblings |
| TopologyForest.FamiliesAreApart | internal/topology/propagate.go:97-126 | Subtrees of different siblings share no node |
| TopologyForest.SizesAddUp | internal/topology/propagate.go:97-126 | Their sizes add up to the size of their union |
| TopologyForest.DescendantsAddUp | internal/topology/propagate.go:97-126 | Each child and its descendants, summed over children, are all descendants of the parent |
| TopologyForest.RootsAddUp | internal/topology/propagate.go:97-126 | Roots and their descendants are all nodes, each once |
| TopologyRollup.RollupIsMonotone | internal/topology/propagate.go:97-126 | Worsening any nodes never improves the roll-up of any node |
| TopologyRollup.ParentsAreNoBetter | internal/topology/status.go:178-186 | A parent is at least as bad as each child, except for a critical child damped to degraded by a healthy sibling of its kind |
| TopologyRollup.RollupIs | internal/topology/propagate.go:97-126 | A roll-up is the worst of the own status and what the children count as, and one of them; an absorbed failure counts as degraded |
| TopologyRollup.CriticalIff | internal/topology/propagate.go:97-126 | Critical is exactly: critical oneself, or over a critical child that no healthy twin absorbs |
| TopologyRollup.AbsorbedDegrades | internal/topology/status.go:178-186 | Where all critical children are absorbed and the node itself is not critical, it is degraded, no better and no worse |
| TopologyRollup.OkMeansAllOk | internal/topology/propagate.go:97-126 | A roll-up is ok if and only if the node and all roll-ups below it are |
| TopologyRollup.KidsAreOffspring | internal/topology/propagate.go:87-92 | The child index lists exactly the children |
| TopologyGraph.Graph.constructor | internal/topology/graph.go:114-119 | A new graph is empty |
| TopologyGraph.Graph.AddNode | internal/topology/graph.go:135-170 | An identifier is added once, at its kind's level; an existing node is returned unchanged |
| TopologyGraph.Graph.AddEdge | internal/topology/graph.go:181-203 | An edge is added if and only if both ends exist and no edge of that kind joins them; the graph stays closed |
| TopologyGraph.Graph.PropagateUplinks | internal/topology/propagate.go:42-79 | Each network becomes critical if all its uplinks are down, degraded if some are, never better |
| TopologyGraph.Graph.GroupUplinks | internal/topology/propagate.go:43-53 | Grouping keeps each network's uplinks, all of them, in order |
| TopologyGraph.Graph.ComputeEffective | internal/topology/propagate.go:84-86 | Every node gets its own status with its alerts |
| TopologyGraph.Graph.ChildrenIndex | internal/topology/propagate.go:87-92 | Every parent gets exactly its children |
| TopologyGraph.Graph.LevelOrder | internal/topology/propagate.go:97-100 | All nodes, each once, deepest level first, ties in their order |
| TopologyGraph.Graph.RollUp | internal/topology/propagate.go:102-126 | The loop over children computes the worst share and the number below |
| TopologyGraph.Graph.CountChildren | internal/topology/propagate.go:93-95 | Every node gets the number of its children |
| TopologyGraph.Graph.RollUpAll | internal/topology/propagate.go:82-126 | On any graph, the single pass takes every node in the order given, summing its children as they are then |
| TopologyGraph.Graph.RollOne | internal/topology/propagate.go:102-126 | One node gets the damped worst status and the count of its children as they are, all others stay |
| TopologyGraph.PassIsRollup | internal/topology/propagate.go:97-126 | With the level order, that pass leaves every node with its recursive roll-up and its number of descendants |
| TopologyGraph.Graph.Physical | internal/topology/propagate.go:128-150 | Whether a cluster has physical nodes, and whether all or any of them are critical |
| TopologyGraph.Graph.ClusterOverride | internal/topology/propagate.go:128-159 | On any graph, the late rule raises the clusters it should and nothing it looks at |
| TopologyGraph.NothingOverridden | internal/topology/propagate.go:128-159 | Where roll-ups are the recursive ones the late rule changes no node |
| TopologyGraph.Graph.Finalize | internal/topology/propagate.go:82-162 | On any graph the final pass is uplinks, effective statuses, the pass by level and the late rule; with the level order it yields the recursive roll-up of the prepared tree at every node |
| TopologyGraph.RollStep | internal/topology/propagate.go:102-126 | Children already final make the computed values of a node its recursive ones |
| TopologyGraph.KidsComeFirst | internal/topology/propagate.go:97-100 | In the level order every child comes before its parent |
| TopologyGraph.CriticalNodeShows | internal/topology/status.go:178-186 | One critical physical node already makes its cluster at least degraded |
| TopologyGraph.AllCriticalShows | internal/topology/status.go:178-186 | All critical physical nodes already make it critical |
| TopologyGraph.OverrideChangesNothing | internal/topology/propagate.go:128-159 | So neither branch of the override can change a rolled-up cluster, and the fleet and site statuses computed before stay right |
| TopologyGraph.FinalRollupIsMonotone | internal/topology/propagate.go:22-126 | Worse node statuses, alerts and uplinks never improve any final roll-up |
| TopologyGraph.FinishedParents | internal/topology/propagate.go:97-126 | In the finished graph no parent looks better than a child, apart from damping |
| TopologyGraph.FinishedDamping | internal/topology/propagate.go:97-122 | In the finished graph a cluster, VM or volume with a critical machine, instance or image beside a healthy one is degraded, if neither itself nor another child is critical |
| TopologyGraph.FinishedUndamped | internal/topology/propagate.go:97-122 | Of any other pair of kinds, or without the healthy sibling, a critical child makes its parent critical |
| TopologyGraph.UplinksDecide | internal/topology/propagate.go:42-79 | A network is as it was without a critical uplink, critical if all are, and otherwise degraded unless critical before |
| TopologyGraph.AlertsAreCapped | internal/topology/propagate.go:22-37 | An alert makes an ok node of a kind with a live status a warning at most; otherwise the worse of the two shows |
| TopologyGraph.FinishedCounts | internal/topology/propagate.go:97-126 | In the finished graph roots and their descendant counts add up to all nodes |
| TopologyDrawing.ShapeIs | internal/topology/graph.go:135-170 | The nodes of a graph drawn by any list of steps are the first specification of each id, with kind, parent and level, in order; edges, statuses and alerts play no part |
| TopologyDrawing.DrawingIsTreeIff | internal/topology/graph.go:135-203 | A drawn graph has the level order if and only if, for the first specification of each id, the first specification of its parent's id is at a smaller level |
| TopologyDrawing.OneNodeKeepsTreeIff | internal/topology/graph.go:135-170 | Adding a node keeps the level order if and only if its id is taken, it has no parent, or its parent is there at a smaller level |
| TopologyDrawing.DistinctAreAll | internal/topology/graph.go:135-170 | Where no id is asked for twice, the nodes are exactly those asked for |
| TopologyDrawing.OneKindIsOrdered | internal/topology/status.go:79-95 | One kind per id and parents asked for first are enough for the level order |
| TopologyDrawing.MarksTouchNoStatus | internal/topology/build.go:185-256 | Marking alerts and adding quorum servers changes no status of a node's own and lowers no alert status |
| TopologyEdges.EdgesAre | internal/topology/graph.go:181-203 | An edge is drawn, with its status, if and only if some step asks for it after both its ends have been asked for and no earlier step did so with success |
| TopologyEdges.KeysAre | internal/topology/graph.go:181-203 | No two nodes are joined twice in the same kind, and the joined pairs are exactly those asked for with both ends there |
| TopologyEdges.StatusIsWorst | internal/topology/build.go:90-126 | Every node's own status is the worst of those planned for it: its own and those it is raised to afterwards |
| TopologyStatuses.AloneHasItsStatus | internal/topology/graph.go:181-203 | A node that one step alone is about is drawn with exactly the status of that step |
| TopologyStatuses.NetworksAreKnown | internal/topology/build_network.go:100-213 | A network is known by its name exactly if one is listed under it, and the last one listed counts |
| TopologyStatuses.HostsAreKnown | internal/topology/build_compute.go:194-231 | The same for a host |
| TopologyStatuses.PortsAre | internal/topology/build_network.go:100-213 | A port is ok if up, or down and known to belong to no listed network; critical if down and its network is listed; otherwise unknown; its uplink, exactly to a listed network, says the same |
| TopologyStatuses.DisksAre | internal/topology/build_storage.go:40-81 | A disk is ok if normal and degraded otherwise, and so is its edge to the group |
| TopologyStatuses.InstancesAre | internal/topology/build_compute.go:194-231 | An instance is ok exactly if enabled and normal, otherwise degraded |
| TopologyStatuses.InterfacesAre | internal/topology/build_network.go:220-251 | A virtual port on a listed network is ok on both sides, degraded on one, critical on none, and if broken raises its machine |
| TopologyStatuses.ImagesAre | internal/topology/build_storage.go:122-163 | An image is ok exactly if enabled; its mirror edge is a warning while the cluster synchronises |
| TopologyBuild.PutNode | internal/topology/graph.go:135-170 | Adds the node exactly if its id is new, and says where it is |
| TopologyBuild.JoinNodes | internal/topology/graph.go:181-203 | Adds the edge exactly if both ends are there and it is not |
| TopologyBuild.ClusterBuild.constructor | internal/topology/build.go:104-115 | A builder starts with empty tables |
| TopologyBuild.ClusterBuild.PutUnder | internal/topology/build_compute.go:36-71 | A node and the edge from its parent |
| TopologyBuild.ClusterBuild.RaiseOne | internal/topology/build_network.go:244-249 | Raises the status of one node and of no other |
| TopologyBuild.ClusterBuild.MarkOne | internal/topology/build.go:240-255 | Raises the alert status of one node, if the severity counts, and nothing else |
| TopologyBuild.ClusterBuild.BuildUnit | internal/topology/build.go:129-178 | Draws the cluster under the given parent, with its edge, raised to warning while it synchronises |
| TopologyBuild.ClusterBuild.BuildNodes | internal/topology/build_compute.go:23-90 | Draws every machine under the cluster and the edge of a pair, by the statuses of both; the name table is then complete |
| TopologyBuild.ClusterBuild.LinkPair | internal/topology/build_compute.go:75-89 | The edge of a pair is ok only if both machines are |
| TopologyBuild.ClusterBuild.BuildNetworks | internal/topology/build_network.go:13-39 | Draws every network under the cluster; the last of a name is what the name stands for |
| TopologyBuild.ClusterBuild.BuildGroups | internal/topology/build_storage.go:13-82 | Draws every storage group under the cluster with every disk under its machine, or under the cluster if that is unknown, and joined to its group |
| TopologyBuild.ClusterBuild.BuildDisk | internal/topology/build_storage.go:40-81 | One disk: parent, edges and status |
| TopologyBuild.ClusterBuild.BuildNics | internal/topology/build_network.go:51-215 | Draws the ports of every machine under it |
| TopologyBuild.ClusterBuild.BuildPort | internal/topology/build_network.go:100-213 | One port: its parent, its status by whether it is down, attached or of unknown mapping, and its uplink exactly if its network is known |
| TopologyBuild.ClusterBuild.BuildVms | internal/topology/build_compute.go:94-168 | Draws every virtual machine with all its parts in order; the table of volumes is then complete |
| TopologyBuild.ClusterBuild.PutVm | internal/topology/build_compute.go:99-140 | A virtual machine is under the machine it runs on, the first placed or else the first enabled one, if that is known, else under the cluster |
| TopologyBuild.ClusterBuild.LinkPlacements | internal/topology/build_compute.go:170-192 | A placement edge from the host of every instance whose host is known |
| TopologyBuild.ClusterBuild.BuildInstance | internal/topology/build_compute.go:194-231 | One instance under its virtual machine, with the edge to its host exactly if that is known |
| TopologyBuild.ClusterBuild.LinkInterface | internal/topology/build_network.go:220-251 | An edge to a known network, by how many of the two ports are enabled; a broken one raises the virtual machine's own status |
| TopologyBuild.ClusterBuild.BuildVolumes | internal/topology/build_storage.go:87-165 | Draws every identified volume under its virtual machine with its images |
| TopologyBuild.ClusterBuild.BuildImage | internal/topology/build_storage.go:122-163 | One disk image under its volume, a warning edge while it synchronises, and the edge to its host exactly if that is known |
| TopologyBuild.ClusterBuild.BuildStandalone | internal/topology/build_storage.go:177-226 | Draws exactly the volumes no virtual machine has, under their group if that is known, and joins all of them to it |
| TopologyBuild.ClusterBuild.BuildContainers | internal/topology/build_storage.go:230-265 | Draws the image containers under their group or the cluster, joined to the volume they back, or else to the group |
| TopologyBuild.ClusterBuild.EnsureQuorum | internal/topology/build.go:271-292 | Adds a quorum server and its edge exactly if the id is new |
| TopologyBuild.ClusterBuild.ApplyAlert | internal/topology/build.go:189-256 | Draws the quorum servers an alert names and marks its targets, or the cluster if it has none |
| TopologyBuild.ClusterBuild.ApplyAlerts | internal/topology/build.go:187-257 | All alerts in order |
| TopologyBuild.ClusterBuild.Build | internal/topology/build.go:90-126 | For every input, whatever its ids: the graph becomes exactly what the plan of the cluster draws on it, nodes, parents, levels, statuses, alerts and edges |
| TopologyOrder.ClusterIsRooted | internal/topology/build.go:90-126 | For every input, each node a cluster asks for comes behind its parent, which was asked for with a kind of a smaller level |
| TopologyOrder.ClusterIsTreeIff | internal/topology/build.go:32-37 | The graph drawn for a cluster has the level order if and only if its specifications are ordered |
| TopologyOrder.OneKindIsEnough | internal/topology/status.go:79-95 | With one kind per id they always are |
| TopologyLinks.ClusterIsLinked | internal/topology/build.go:90-126 | For every input, whatever its ids, each edge planned for a cluster comes behind both its ends, but for those of image containers to the volumes they back |
| TopologyLinks.ClusterEdgesAre | internal/topology/build.go:90-126 | So the edges of a cluster's graph are exactly the planned ones, and those of containers exactly where the volume had been asked for |
| TopologyOrder.SharedIdBreaksOrder | internal/topology/graph.go:135-139 | A cluster whose second virtual machine has the id of a disk image of the first is drawn without the level order |
| TopologyFleet.DrawCluster | internal/topology/build.go:32-36 | Draws any cluster, and nothing but what is planned for it |
| TopologyFleet.DrawFleet | internal/topology/build.go:42-82 | Draws any fleet: the root, each site with its first cluster, and every cluster under its site or the root |
| TopologyFleet.Finish | internal/topology/propagate.go:82-162 | The final pass changes no id, kind, parent or edge on any graph, and with the level order yields the recursive roll-up of what was drawn |
| TopologyFleet.BuildClusterTopology | internal/topology/build.go:32-37 | For every input: the nodes are the first specification of each id, the edges those drawn, and where the specifications are ordered every roll-up is the recursive one |
| TopologyFleet.BuildFleetTopology | internal/topology/build.go:42-86 | The same for every fleet |
| TopologyFleet.DistinctIdsAreAllThere | internal/topology/build.go:90-126 | With distinct ids the level order holds, and the nodes are exactly those asked for, each under its parent |
| TopologyFleet.FleetIsTreeIff | internal/topology/build.go:42-86 | The exact condition for fleets |
| TopologyFleet.OneKindIsEnoughForFleets | internal/topology/build.go:42-86 | One kind per id is enough for fleets, with sites shared by any members |
| TopologyFleet.AlertsTouchNoStatus | internal/topology/build.go:185-256 | No list of alerts changes a status of a node's own or lowers an alert status |
| Ber.UnsignedMinimal | internal/snmp/ber.go:36-50 | The shortest form holds its number and has no leading zero byte |
| Ber.MinimalSize | internal/snmp/ber.go:36-50 | It has at most k bytes exactly if the number is below 256 to the k |
| Ber.MinimalIsUnique | internal/snmp/ber.go:36-50 | Any form without leading zero is the shortest one |
| Ber.LenRoundTrip | internal/snmp/ber.go:199-228 | A written length is read back before any other bytes, exactly if it needs at most four bytes |
| Ber.TlvRoundTrip | internal/snmp/ber.go:53-60 | So is an element |
| Ber.ElementsRoundTrip | internal/snmp/ber.go:191-247 | So is a list of elements |
| Ber.AcceptedIffTiled | internal/snmp/ber.go:191-247 | For every byte string: reading yields these elements if and only if it is made of exactly these, one after the other, without gap or rest |
| Ber.IntRoundTrip | internal/snmp/ber.go:62-77 | Every 64-bit signed integer is read back |
| Ber.UintRoundTrip | internal/snmp/ber.go:89-99 | Every unsigned value is read back, and accepted as 32-bit exactly if it is one |
| Ber.GroupsAreRead | internal/snmp/ber.go:151-175 | Base-128 groups up to 64 bits are read as the number they hold |
| Ber.ArcsAreRead | internal/snmp/ber.go:151-175 | Every list of arcs up to 2^64-1 is read back |
| Ber.OidRoundTrip | internal/snmp/ber.go:105-175 | A written identifier is read back if and only if its second arc is below 40 |
| Ber.WrappedArcIsAccepted | internal/snmp/ber.go:125-128 | A second arc near 2^64 wraps around and is written as another identifier |
| BerCode.EncodeLength | internal/snmp/ber.go:36-50 | The length loop writes the octets of ITU-T X.690, section 8.1.3 |
| BerCode.EncodeSigned | internal/snmp/ber.go:62-77 | The stripping loop writes the shortest two's complement form |
| BerCode.EncodeUnsigned | internal/snmp/ber.go:89-99 | Writes the shortest form with a clear sign bit |
| BerCode.DecodeInt | internal/snmp/ber.go:249-261 | Reads one to eight bytes as a signed number and refuses the rest |
| BerCode.DecodeUnsigned | internal/snmp/ber.go:180-186 | The shifting loop reads the number modulo 2^64, which loses nothing of any accepted value |
| BerCode.EncodeArc | internal/snmp/ber.go:130-146 | The chunk loop writes the base-128 groups of ITU-T X.690, section 8.19 |
| BerCode.EncodeOid | internal/snmp/ber.go:105-148 | Writes an identifier or refuses it |
| BerCode.DecodeOid | internal/snmp/ber.go:151-175 | Reads an identifier, refusing overflow and an open end |
| BerCode.Reader.constructor | internal/snmp/ber.go:191-196 | A cursor starts with everything to read |
| BerCode.Reader.Parse | internal/snmp/ber.go:199-227 | Reads one element within bounds, or nothing |
| BerCode.Reader.ParseLength | internal/snmp/ber.go:205-220 | Reads a length within bounds, or nothing |
| BerCode.Reader.Read | internal/snmp/ber.go:199-235 | Each read yields the next element, moves forward, and fails only if the bytes do not continue as elements |
| BerCode.Reader.ReadTag | internal/snmp/ber.go:238-247 | The same for an expected tag |
| BerCode.Reader.AtEnd | internal/snmp/ber.go:196-197 | A cursor at the end has read exactly the elements of its bytes |
| Snmp.DecIntBound | internal/snmp/ber.go:249-261 | What is read as an integer fits 64 bits |
| Snmp.ValuesHaveTheOids | internal/snmp/get.go:267-297 | A response maps exactly the identifiers of its bindings |
| Snmp.ResponseKeepsEveryBinding | internal/snmp/get.go:267-297 | A response without duplicates gives every binding's own value under its identifier |
| Snmp.EachOnce | internal/snmp/get.go:293-296 | Without duplicates there are as many values as bindings |
| Snmp.TrapIsTiled | internal/snmp/trap.go:146-363 | An accepted trap is tiled exactly, without trailing bytes, at every level: datagram, message, PDU, list and each binding |
| Snmp.ResponseIsTiled | internal/snmp/get.go:216-299 | So is an accepted GET response, which moreover names no object twice |
| SnmpTraps.ValueRoundTrip | internal/snmp/builder.go:20-53 | A written value is valid and read as itself exactly if identifiers are representable and ticks fit 32 bits |
| SnmpTraps.BindingRoundTrip | internal/snmp/builder.go:54-58 | A written binding is read with its identifier and value exactly under these conditions |
| SnmpTraps.BindingsRoundTrip | internal/snmp/builder.go:69-76 | A written list is read back complete and in order exactly under these conditions |
| SnmpTraps.LastNameWins | internal/snmp/trap.go:213-217 | The trap identifier read is that of the last binding of that name |
| SnmpTraps.TrapRoundTrip | internal/snmp/builder.go:19-79 | A built trap decodes to the same community, trap identifier and ordered bindings if and only if it fits four length bytes, everything in it is representable and no later binding renames the trap |
| SnmpTraps.PduTypesAre | internal/snmp/trap.go:178-217 | Any version 2 message with readable bindings is a trap if its type is 0xA7, an inform if 0xA6, and nothing else is, named by the last binding that names it |
| SnmpTraps.V1RoundTrip | internal/snmp/trap.go:218-266 | A version 1 trap is read as itself: generic trap n is 1.3.6.1.6.3.1.1.5.(n+1), number 6 the enterprise's own, anything else is refused |
| SnmpTraps.AnswerIsRead | internal/snmp/get.go:216-299 | A GET response is read with its numbers and every value if and only if its type is 0xA2, its status one of 0 to 18, its index not negative and no object is named twice |
| SnmpTraps.IntegersAreShown | internal/snmp/value.go:68-71 | A written INTEGER is returned as its number |
| SnmpTraps.CountersAreShown | internal/snmp/value.go:72-77 | A written Counter32, Gauge32 or TimeTicks is accepted exactly if it has 32 bits, and returned as its number |
| SnmpTraps.WideCountersAreShown | internal/snmp/value.go:78-83 | A Counter64 is accepted exactly if it has 64 bits; from 2^63 on its bytes are returned |
| SnmpTraps.OtherValuesAreShown | internal/snmp/value.go:84-100 | Missing objects and nulls are empty and returned as nothing; octets and unknown types are returned as they are |
| SnmpTraps.RequestRoundTrip | internal/snmp/get.go:33-49 | A built GET request reads as its id, community and exactly the identifiers asked for, if and only if it fits four length bytes and these are representable |
| SnmpCode.OpenEnvelope | internal/snmp/trap.go:146-176 | Opens a datagram exactly if it is one sequence of version, community and PDU with nothing after it at either level |
| SnmpCode.OpenMessage | internal/snmp/trap.go:155-176 | The message inside: version 0 or 1, community and one PDU of any kind, and nothing after it |
| SnmpCode.ReadBinding | internal/snmp/trap.go:336-354 | A binding is an identifier and a valid value, and nothing after it |
| SnmpCode.ReadBindings | internal/snmp/trap.go:328-363 | The loop reads all bindings in order, or none |
| SnmpCode.DecodeV2 | internal/snmp/trap.go:190-217 | Accepts exactly the trap and inform PDUs of RFC 3416, section 4.2.6: three integers, the last two zero, and a list of bindings |
| SnmpCode.FindTrapOid | internal/snmp/trap.go:213-217 | The loop finds the last trap identifier |
| SnmpCode.DecodeV1 | internal/snmp/trap.go:218-259 | A version 1 trap, with its identifier derived from enterprise, generic and specific numbers |
| SnmpCode.DecodeTrap | internal/snmp/trap.go:146-276 | The decoder accepts exactly the well-formed traps, with their meaning |
| SnmpCode.DecodeGetResponse | internal/snmp/get.go:216-299 | The decoder accepts exactly the well-formed responses |
| SnmpCode.DecodeResponse | internal/snmp/get.go:246-298 | The Response-PDU of RFC 3416, section 4.2.4, with its bounds on error fields |
| SnmpCode.CollectValues | internal/snmp/get.go:267-297 | The loop collects all values, or refuses a duplicate |
| SnmpCode.EncodeInt | internal/snmp/ber.go:62-87 | Writes an integer element, zero included |
| SnmpCode.EncodeValue | internal/snmp/builder.go:20-53 | Writes the element of a value, or refuses an identifier that has none |
| SnmpCode.EncodeBindings | internal/snmp/builder.go:61-76 | The loop writes all bindings in order, or refuses all because of one |
| SnmpCode.EncodeMessage | internal/snmp/builder.go:77-78 | Wraps any list of bindings as PDU and message |
| SnmpCode.BuildV2cTrap | internal/snmp/builder.go:19-79 | Builds the trap whose round trip is proved |
| SnmpCode.BuildGetRequest | internal/snmp/get.go:33-61 | Builds the request whose round trip is proved |
| SnmpCode.BindingsAppend | internal/snmp/trap.go:328-363 | Reading a list in two parts is reading it whole |
| SnmpCode.BadBinding | internal/snmp/trap.go:331-354 | One bad binding refuses the list |
| Backup.RedactedIsClean | internal/httpapi/backup.go:50-73 | No secret is left after blanking |
| Backup.SecretKeyIs | internal/httpapi/backup.go:40-44 | A field name is secret exactly if one of seven words occurs in it in whatever case, and it is not the policy's name |
| Backup.BlankedAre | internal/httpapi/backup.go:50-73 | Place by place: exactly the texts under secret names are blanked, and no other value changes |
| Backup.CleanIsUntouched | internal/httpapi/backup.go:50-73 | Blanking changes a document if and only if it held a secret |
| Backup.SameIdentity | internal/httpapi/backup.go:130-151 | Blanking changes no element's identity |
| Backup.IdentityIs | internal/httpapi/backup.go:130-151 | An element with a key goes by key and addresses, one without by its addresses, and only one with neither by its name; one with nothing has no identity |
| Backup.OwnPartner | internal/httpapi/backup.go:96-126 | An element of a blanked array finds itself in the original exactly if its identity is its own |
| Backup.MergeWithNothing | internal/httpapi/backup.go:77-94 | Where the old document has nothing, the new one stays |
| Backup.ExportImport | internal/httpapi/backup.go:50-126 | Importing an exported document gives back the original if and only if secret fields are strings or hold nothing to blank, and array elements holding secrets have identities of their own |
| Backup.CountIdentities | internal/httpapi/backup.go:98-113 | The loop counts identities and remembers the last element of each |
| Backup.MergeSecrets | internal/httpapi/backup.go:77-126 | The recursive loops compute the merged document |
| Backup.MergeFields | internal/httpapi/backup.go:79-94 | The fields of an object |
| Backup.MergeItems | internal/httpapi/backup.go:95-125 | The elements of an array, paired by unique identity |
| Backup.MergeOnlyFills | internal/httpapi/backup.go:77-126 | Importing adds no place, removes none, and changes nothing but blank strings |
| Backup.FilledFromSamePlace | internal/httpapi/backup.go:77-126 | A filled secret comes from the same fields and, through arrays, from elements of the same unique identity text |
| BackupIdentity.FilledFromSameThings | internal/httpapi/backup.go:77-151 | Along the way every pair of elements has the same key at the same endpoints, wherever identities can be read in one way only or neither has a bar in its parts |
| BackupIdentity.CollisionsAre | internal/httpapi/backup.go:130-151 | Some element with another key or other endpoints has the same identity text if and only if that text can be cut before a later address with something on both sides |
| BackupIdentity.OtherReading | internal/httpapi/backup.go:130-151 | For every identity that can be cut, the element with other endpoints that shares it |
| BackupIdentity.UnambiguousIsFaithful | internal/httpapi/backup.go:130-151 | An identity that cannot be cut belongs to one key at one set of endpoints |
| BackupIdentity.BarFreeIsFaithful | internal/httpapi/backup.go:130-151 | So does an identity shared by two elements whose parts have no bars |
| BackupIdentity.KeyOnlyIsAmbiguous | internal/httpapi/backup.go:136-142 | For an element with a key and no address, exactly if the key contains what looks like an address between other text |
| BackupIdentity.SecondPartCuts | internal/httpapi/backup.go:136-142 | An element with a key and an address always shares its identity with a key that contains it |
| BackupIdentity.SecretsMoveIff | internal/httpapi/backup.go:77-126 | An import can fill an element's blank password from an element at other addresses if and only if its identity can be cut |
| BackupIdentity.JoinedIsUnique | internal/httpapi/backup.go:130-151 | Joined parts without bars determine the parts |

## Left out

- Sockets, HTTP handlers, SSH, AVCLI, TLS and web assets: their results are free inputs.
- Identities built with SHA-256 are pairs compared as such; no collision is possible in the model.
- Notification message texts, last-error texts, health status and the test message.
- Signal keys and host names are taken as already trimmed; display times are taken with their parsed values.
- Order among due deliveries created at the same instant: any oldest-first order is allowed.
- A panic inside a worker: a poller's life ends there.
- File permissions, ownership, symbolic links, Windows data protection and the parts of a file replacement: a replacement is one step that is done, not done, or done and reported as failed.
- The notification state's size limit and its decoding: a crash resumes from the state last written.
- JSON text: events, documents and states are values after parsing. A text of an event is taken to survive writing and reading, which invalid UTF-8 would not.
- EventLine.MarshalEventLine: escaping and UTF-8 checks are parameters, of which only is used that a character takes at most six bytes.
- EventLog.EventFile.RecordAudit: a record arrives as an event or as none, for one that fails its checks; the checks themselves are in `EventLine`.
- EventLogRuns.CompactedReopens: takes for granted that a rewritten event reads back as itself. `EventLine.ReadsBackTheSame` proves it for every event and every audit record the service writes, and says exactly for which audit lines of other origin it fails: those so long that their kind is shortened, which then lose their audit texts.
- Event watching, listing and status reports.
- Random names of new credentials: an update is given names that are valid, distinct and unused on the disk and in the documents.
- ConfigStore.Store.Rmw: the values of unmanaged references are not on the modelled disk, and a reference the caller brings along is required to resolve.
- A store without a credential directory, and moving plaintext secrets in one go (`MigratePlaintextSecrets`).
- Admin.PutNotifications: other writers between the steps, the repeated attempts they cause, and checking the request's own fields.
- Secrets.ReferenceRoundTrip: which characters beyond ASCII are letters or digits; all of them are taken for letters in credential names, so every name the program accepts is one here. Lower-casing and pattern matching of secret field names beyond ASCII letters.
- The document maps that the program updates in place are values here, so sharing between documents is not captured (`Secrets`, `Backup`).
- Backup.MergeSecrets: the import handler around it, with its checks of single sections.
- Cpu, memory, traffic and other readings of NAS and PLC, and the FINS, CIP and SNMP exchanges that produce them.
- TopologyGraph.Graph.AddNode: nodes are records in a sequence addressed by position, not objects; labels, metadata, reasons, lanes and coordinates are not kept.
- TopologyBuild.ClusterBuild.Build: the states of machines, virtual machines, networks, groups and volumes arrive as statuses, after the rules on states, redundancy and usage; machines are taken in sorted order, and the matching of alerts, ports, volumes and containers to nodes by text is part of the input.
- SnmpTraps.TrapRoundTrip: the uptime is taken as the 64-bit word's signed reading, and identifiers as lists of arcs; dotted text is not parsed.
- Names, descriptions and severities of traps, printable forms of octet strings, receiving and storing traps, and sending and repeating GET requests.
- `internal/webauth`, `internal/sshmetrics`, `internal/deviceview` and the demo data.
