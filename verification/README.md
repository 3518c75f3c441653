# A verified model of the pm0 daemon's core

pm0 is a process manager: a daemon keeps a registry of apps, runs one actor per app, tails the files the apps write,
and streams their lines to clients. This project models the parts of it where ordering, accounting or
"never lose it" is claimed over unbounded runs, and proves those claims, or the exact condition under which they hold.

| modules | what they model |
|---|---|
| `LogLines`, `Pump` | splitting bytes into lines; the tailing pump with its offset, its batch cap and copytruncate rotation with a carried partial line |
| `LogRing`, `Subscriber`, `Route`, `Attach` | the bounded ring, one consumer's bounded channel with drop markers, the route that feeds both, and a client attaching to it |
| `Pipeline` | the pump, the route and the attachment put together: from the bytes a child writes to the lines a client reads |
| `Registry`, `Supervisor` | the app registry and the rolling reload as labelled steps, and the class that carries them out one lock section at a time |
| `Ops` | the reconciler of feature runners and the loop that calls it only when the registry's version moved |
| `Reaper` | the hand-off of process exits between the reaper and those who wait for them |
| `Policy`, `Actor` | the restart policy (crash-loop budget, backoff) and the per-app actor that applies it |
| `Calendar`, `CronNext`, `CronFields`, `CronText` | the Gregorian calendar, the next-fire search, the feasibility check, and the parsing of expressions |
| `Common` | an option type, a minimum and a no-duplicates predicate |

Code that updates fields is a class whose methods are proved equal to a function on values (`View() == TickStep(opts,
old(View()), ...)`); what the source promises is then proved about that function over all inputs and all runs.
What the code cannot decide (whether a launch or a kill path succeeds, when a consumer runs, what a poll observes, the
clock, the bytes a child writes) is a parameter of the step, so every theorem holds for every outcome.

## Where the code and its documentation part

The model follows the code. Each of these has a lemma giving a concrete failing case and one giving the exact condition.

* Batch cap (`internal/logbus/logbus.go:93-103`): growth past 64 MiB is skipped, counted, and the freshest 64 MiB are
  delivered. The number counted is the whole growth in MiB, 64 more than what is passed over
  (`Pump.HeadSkipKeepsTail`). The guard also counts the carried prefix, so growth *below* the cap can take the branch; the skip target is
  then negative, the seek fails, and the carried prefix is lost, on a rotating tick together with the whole copied file.
  `Pump.ExactIffGrowthAndCarryFit`, `Pump.RotationCanLoseABatch`. From then on capture is exact again:
  `Pump.CaptureRecovers`.
* Attach (`internal/daemon/logtail_linux.go:10-13`): "every line is delivered exactly once across the attach". No line
  comes twice, but a queued line that the snapshot covers and the last n left out (or the ring has evicted) is dropped
  without a marker; with n = 1, two lines captured between Subscribe and snapshot do it. `Attach.AttachGap`,
  `Attach.AttachGapExample`.
* Drop markers: every lost line is counted, but a receive between the two selects of one fan-out lets a line overtake the
  marker of its own stream. `Subscriber.MarkersSitAtTheGaps`, `Subscriber.OvertakenExample`.
* Ids (`internal/supervisor/supervisor.go:272-278`): an empty registry hands out 0 again. It does not when the
  retirement of a parked actor emptied it, nor when a batch of which no actor could be built was sent to an empty one.
  `Registry.EmptyRewindsIffDeleted`, `Registry.EmptyWithoutRewind`, `Registry.UnbuiltBatchTakesIds`.
* Next fire (`internal/cron/cron.go:245-249, 275-276`): a match "always exists" in the four-year window. It does not when
  the schedule is confined to 29 February and the window spans a skipped leap year. `CronNext.FiresExactly`,
  `CronNext.LeapDayMissed`.
* Steps (`internal/cron/cron.go:224-226`): a step near 2^63 overflows the loop variable, and bits outside the element are
  set. `CronFields.BitsExactIff`, `CronFields.WrappedStepExample`. Parsed schedules fire all the same:
  `CronFields.ParsedNext`.
* Reaper (`internal/proc/reaper_linux.go:77-80`): Register yields a channel "that receives exactly one ExitInfo", before
  or after the exit. Two things break it. One recurrence of a pid is enough for the first: the exit of an orphan nobody
  claimed is handed at once to whoever registers a living child of the same pid, whose own exit then stays in the cache.
  `Reaper.RegisterThenExit`, `Reaper.NamesakeExit`. And a pid that exits twice before its exit is claimed leaves an entry
  in the order that stands for nothing; when that entry reaches the front, a later exit of the pid is pushed out by a
  single other exit, and Register waits for ever. `Reaper.RegisterGetsIff`, `Reaper.ExitLostFromStart`.
* Actor: a launch over a held process tree happens exactly when Start reaches an app left errored by a failed kill, which
  the supervisor never does. `Actor.LeaksIff`, `Actor.LeakExample`, `Actor.NoLeakUnderSupervisor`.

## Model

| member | source | states |
|---|---|---|
| LogLines.SplitRebuilds | internal/logbus/logbus.go:752-768 | lines, each with its newline back, followed by the partial are the buffer; no piece contains a newline |
| LogLines.SplitUnique | internal/logbus/logbus.go:752-768 | the split is the only newline-free decomposition of the buffer |
| LogLines.SplitAppend | internal/logbus/logbus.go:704-708 | splitting in two reads with the partial carried over equals splitting at once |
| LogLines.SplitCompleteConsumed | internal/logbus/logbus.go:769-791 | the memchr loop, which shares the bytes of repeated lines, returns the lines and the partial of the buffer, and consumes exactly the bytes of the complete lines |
| LogLines.SplitComplete | internal/daemon/logtail_linux.go:328-340 | the byte loop returns the same lines and partial |
| Pump.AgreesExact | internal/logbus/logbus.go:580-595 | a captured line whose true line is at most MaxLineBytes long is that line, byte for byte |
| Pump.CaptureChunk | internal/logbus/logbus.go:709-747 | prefixing a read with the bounded carry yields the lines of everything seen, each agreeing with its true line on the first MaxLineBytes bytes |
| Pump.TickTracks | internal/logbus/logbus.go:475-599 | a wake-up that does not skip, rotating or not and whatever lands between stat and open, keeps offset, carry, live file, archives and emitted lines tied to the bytes written |
| Pump.WrittenAfterTick | internal/logbus/logbus.go:628-662 | any wake-up, skipping or failing included, leaves on disk exactly what was there and what was appended |
| Pump.RunWrites | internal/logbus/logbus.go:628-662 | archives followed by the live file are always exactly what the child wrote outside the window between a copy and its truncate |
| Pump.RunFollows | internal/logbus/logbus.go:475-599 | over every run of appends and non-skipping wake-ups, from any point on, seen and unseen bytes together grow by exactly what the child writes, the lines emitted since are those of the bytes seen, and nothing is skipped or cleared |
| Pump.CaptureExactlyOnce | internal/logbus/logbus.go:475-599 | over every such run from start-up the bookkeeping is exact and the captured lines are the newline split of a prefix of everything written, in order, none lost, merged or repeated; one quiet wake-up makes it the whole |
| Pump.QuietWakeCatchesUp | internal/logbus/logbus.go:553-579 | a wake-up nothing lands in has emitted every complete line there is |
| Pump.TickFollows | internal/logbus/logbus.go:525-599 | a wake-up that does not skip goes on from the bytes seen: seen and unseen bytes together grow by what was appended, the lines emitted since any earlier point stay those of the bytes seen, and when nothing lands in between no complete line stays unseen |
| Pump.StepSettles | internal/logbus/logbus.go:525-599 | every wake-up, skipping and failing ones included, leaves an offset inside the file and a carry that is the start of a line, and takes back no line |
| Pump.CaptureRecovers | internal/logbus/logbus.go:475-599 | after any history whatsoever, outside truncations and removals included, that leaves the file no shorter than the offset, as every wake-up does, a run within the cap captures what is left (carry, unread bytes and new output) exactly once, and all of it one quiet wake-up later |
| Pump.WindowLosesExactly | internal/logbus/logbus.go:22-28 | with bytes written between the copy and its truncate: exactly those are lost, if the tick rotates, and nothing else |
| Pump.RotatesAtThreshold | internal/logbus/logbus.go:540-542 | a wake-up moves the file aside if and only if it has reached the threshold and can be copied, and so leaves it below the threshold |
| Pump.RotationCounted | internal/logbus/logbus.go:582-598 | each rotation is counted, and so is the open line it cuts, if it is longer than a line may be |
| Pump.ShrunkStartsOver | internal/logbus/logbus.go:532-537 | a file found shorter than the offset is read from its start, and that it was found empty is noted, once |
| Pump.ShrunkWakeCaptures | internal/logbus/logbus.go:532-579 | so the wake-up after an outside truncation emits exactly the complete lines of the new content, all there was when it looked and perhaps more, and goes on from there |
| Pump.GoneStartsOver | internal/logbus/logbus.go:527-531 | a file that is gone is read from its start when it is back |
| Pump.DeedKeepsLoose | internal/logbus/logbus.go:525-599 | whatever is done to the file, emptying and removing it included, the pump takes back no line, and a wake-up leaves it fit to go on |
| Pump.HeadSkipKeepsTail | internal/logbus/logbus.go:558-566 | past the cap exactly the lines of the last 64 MiB before the noted size are emitted; the number noted is the whole growth in MiB, which is 64 more than the MiB passed over |
| Pump.ExactIffGrowthAndCarryFit | internal/logbus/logbus.go:558-575 | with growth below the cap, capture stays exact if and only if growth and carried prefix together fit the cap |
| Pump.FailedSeek | internal/logbus/logbus.go:571-574 | otherwise the wake-up emits nothing and forgets the carry, having already moved the file aside if it rotates |
| Pump.LostBatch | internal/logbus/logbus.go:540-575 | any head carried across a first rotation, finished by almost one batch, ends with a complete line written and nothing captured or live |
| Pump.RotationCanLoseABatch | internal/logbus/logbus.go:93-103 | this happens with the default limits |
| Pump.SinkPump.constructor | internal/logbus/logbus.go:475-489 | a new pump is at offset 0 with nothing carried |
| Pump.SinkPump.ChildWrites | internal/logbus/logbus.go:475-599 | the child's append is the write step of the run model |
| Pump.SinkPump.RotateIfDue | internal/logbus/logbus.go:604-617 | copies and truncates when the size threshold is reached and the copy succeeds, else leaves the file |
| Pump.SinkPump.SkipHead | internal/logbus/logbus.go:558-566 | moves to 64 MiB before the noted size, forgets the carry and counts, when growth and carry exceed the cap |
| Pump.SinkPump.ReadNewIntoPrefix | internal/logbus/logbus.go:709-747 | the reading loop returns the offset after the complete lines, those lines and the partial of prefix and new bytes, or the seek error of a negative offset |
| Pump.SinkPump.CaptureNew | internal/logbus/logbus.go:558-597 | the reading half of a wake-up on the fields |
| Pump.SinkPump.Tick | internal/logbus/logbus.go:515-599 | one pass of the loop is the wake-up step of the run model |
| LogRing.PushKeepsLongestSuffix | internal/logbus/logbus.go:399-423 | a push keeps the longest suffix of old contents and new entry within both bounds, or the new entry alone |
| LogRing.Ring.constructor | internal/logbus/logbus.go:168-193 | a new ring is empty |
| LogRing.Ring.EvictOldest | internal/logbus/logbus.go:405-414 | removes the first entry of the view and its length from the byte count |
| LogRing.Ring.PutNewest | internal/logbus/logbus.go:415-421 | appends to the view, wrapping around the buffer |
| LogRing.Ring.PushRing | internal/logbus/logbus.go:399-423 | the circular buffer's view after a push is that suffix, and the number evicted is returned |
| LogRing.Ring.Clear | internal/logbus/logbus.go:326-333 | empties the view |
| LogRing.Ring.BacklogAll | internal/logbus/logbus.go:299-311 | returns the view, without stderr unless it is wanted or the sink is merged, changing nothing |
| LogRing.Ring.Backlog | internal/logbus/logbus.go:276-294 | returns the last n of that |
| Subscriber.FanSound | internal/logbus/logbus.go:427-453 | under any consumer schedule a fan-out keeps: delivered + announced + pending = produced per stream, drops = announced + pending, delivered numbers strictly rise and are produced lines |
| Subscriber.LossNeverSilent | internal/logbus/logbus.go:427-453 | so does every run since Subscribe, whenever the consumer runs |
| Subscriber.LostIffFull | internal/logbus/logbus.go:445-452 | a line is lost if and only if the channel is full when its turn comes; else it goes in last |
| Subscriber.MarkerGoesFirst | internal/logbus/logbus.go:431-444 | with a gap pending and room, a marker with the whole count and the number of the next line goes in next, and the gap is settled |
| Subscriber.KeepingUpLosesNothing | internal/logbus/logbus.go:427-453 | a consumer that has made room by the time of each line is sent every line, in order, and nothing else |
| Subscriber.AlignedIffNotOvertaken | internal/logbus/logbus.go:427-453 | expanding each marker to its gaps keeps delivered lines at their produced positions if and only if no receive falls between the two selects while a marker is held back |
| Subscriber.MarkersSitAtTheGaps | internal/logbus/logbus.go:59-71 | over every run since Subscribe, all delivered lines are at their produced positions if and only if no such receive ever happened |
| Subscriber.OvertakenExample | internal/logbus/logbus.go:427-453 | capacity one, three lines, one receive between the selects: the third line precedes the marker for the second |
| Route.PushConsecutive | internal/logbus/logbus.go:378-386 | the ring holds exactly the last numbers assigned, without holes |
| Route.CapturedProduced | internal/logbus/logbus.go:366-380 | a batch gets rising numbers above all earlier ones and no markers |
| Route.RingDataCarries | internal/logbus/logbus.go:370-375 | what is stored of a line is the line, byte for byte, if it is within the limit, else its head and the mark "...[truncated]" |
| Route.CapturedIsBatch | internal/logbus/logbus.go:366-380 | a batch becomes one entry per line, in order, numbered on, each carrying its line so |
| Route.Sub.constructor | internal/logbus/logbus.go:220-242 | a subscription starts with an empty channel and nothing pending |
| Route.Sub.Take | internal/logbus/logbus.go:244-245 | the consumer's receives move entries from the channel in order |
| Route.Sub.Offer | internal/logbus/logbus.go:427-453 | one subscriber's turn of the fan-out: marker first if one is due and fits, then the line or a counted drop, never blocking |
| Route.LogRoute.constructor | internal/logbus/logbus.go:168-209 | a new route is open, empty, unsubscribed, numbering from 1 |
| Route.LogRoute.Subscribe | internal/logbus/logbus.go:220-242 | registers a fresh subscriber, or hands out a closed one on a closed route |
| Route.LogRoute.Unsubscribe | internal/logbus/logbus.go:260-268 | removes and closes a registered subscriber once, and leaves any other alone |
| Route.LogRoute.Clear | internal/logbus/logbus.go:326-333 | empties the ring and counts it, keeping the numbering |
| Route.LogRoute.Close | internal/logbus/logbus.go:337-355 | closes every subscriber once; what is queued stays readable |
| Route.LogRoute.Fanout | internal/logbus/logbus.go:427-453 | every subscriber takes its own fan-out step, independently of the iteration order |
| Route.LogRoute.Store | internal/logbus/logbus.go:368-386 | numbers a line, cuts and marks an overlong one and keeps any other byte for byte, counts the cut and pushes it |
| Route.LogRoute.AppendLines | internal/logbus/logbus.go:362-393 | a batch becomes entries numbered consecutively, each carrying its line byte for byte within the limit and cut and marked past it; they are pushed in order and fanned in order to every subscriber, and cuts are counted; a closed route ignores it |
| Attach.Partition | internal/daemon/logtail_linux.go:80-99 | splits a snapshot per stream in order and finds its highest number |
| Attach.Select | internal/daemon/logtail_linux.go:100-112 | keeps the last n of each stream |
| Attach.BacklogPhase | internal/daemon/logtail_linux.go:80-112 | what the backlog phase sends, read off the ring |
| Attach.MergedKeepsAll | internal/logbus/logbus.go:299-311 | a merged sink's lines all reach a stdout-only client |
| Attach.RingHoldsSuffix | internal/logbus/logbus.go:399-423 | the ring is always a suffix of the route's history |
| Attach.MarkersSurvive | internal/daemon/logtail_linux.go:150-175 | the follow phase forwards every drop marker of a wanted stream |
| Attach.FollowedStreams | internal/daemon/logtail_linux.go:162-167 | the follow phase forwards nothing of an unwanted stream, markers included, and nothing that was not sent |
| Attach.BacklogExact | internal/daemon/logtail_linux.go:80-112 | a wanted line is in the backlog if and only if it is in the ring with fewer than n of its stream after it |
| Attach.NoLineTwice | internal/daemon/logtail_linux.go:56-63 | backlog and live lines of a stream together have strictly rising numbers, whatever was appended between Subscribe and the snapshot |
| Attach.ClientExact | internal/daemon/logtail_linux.go:150-175 | above the snapshot's highest number the client gets exactly what entered its channel, at or below it exactly the backlog |
| Attach.MissingIsAnnounced | internal/daemon/logtail_linux.go:150-175 | lines produced since Subscribe that never entered the channel are as many as the markers the client sees announce, plus those pending |
| Attach.AttachGap | internal/daemon/logtail_linux.go:10-13 | a line queued between Subscribe and snapshot is shown if and only if the backlog has it or it is above the snapshot's highest number |
| Attach.AttachGapExample | internal/daemon/logtail_linux.go:10-13 | two lines captured between Subscribe and snapshot, and n = 1 (or a ring that has lost the first): the first is queued, never shown and never announced |
| Attach.RingOfRun | internal/logbus/logbus.go:362-423 | over every run of captures and clears the ring is a suffix of the history |
| Attach.BatchHistory | internal/logbus/logbus.go:362-393 | a batch of lines adds its entries to the history, numbered on from there |
| Attach.BatchRing | internal/logbus/logbus.go:362-423 | and pushes them into the ring one by one |
| Attach.AppendMirrors | internal/logbus/logbus.go:362-393 | a route that has appended a batch has the ring and numbering of the run with those captures added |
| Attach.ClearMirrors | internal/logbus/logbus.go:326-333 | a cleared route those of the run with a clear added, a new one those of the empty run |
| Attach.VisitAttaches | internal/daemon/logtail_linux.go:56-63 | any run of the route, any subscription point, any later snapshot and any consumer schedule make an attachment as the lemmas above assume |
| Attach.AttachBoundary | internal/daemon/logtail_linux.go:10-13 | over all of them, per stream: numbers strictly rise; a wanted line above the snapshot is shown exactly when it entered the channel, one at or below exactly when it is in the backlog; and lines that never entered the channel are announced or pending, in equal number |
| Pipeline.BatchFeeds | internal/logbus/logbus.go:575-579 | appending a batch hands the route the batch's lines, after those it had |
| Pipeline.HistoryShowsWritten | internal/logbus/logbus.go:475-599 | over every run within the cap, the k-th line of a sink in the route's history shows the k-th line the child wrote there: whole, if it is within the limit, else its head, with or without the mark |
| Pipeline.ClientReadsWritten | internal/daemon/logtail_linux.go:10-13 | and every line a client gets of the sink shows the line at its own place among those the child wrote, in the order written and none twice |
| Registry.BatchWrites | internal/supervisor/supervisor.go:127-170 | a batch writes at base, base + 1, ... where the actor could be built, and nowhere else |
| Registry.BatchKeeps | internal/supervisor/supervisor.go:127-170 | a batch of ids above all keys keeps the registry invariant and the counter |
| Registry.StartOverwritesNothing | internal/supervisor/supervisor.go:127-170 | a started batch overwrites no entry there was, although it does not look |
| Registry.StepKeepsInv | internal/supervisor/supervisor.go:127-278 | every start, delete and reload step keeps ids, actors, serials, retirement and the parked slot consistent |
| Registry.RunKeepsInv | internal/supervisor/supervisor.go:413-556 | so does every interleaving of them |
| Registry.ReloadSafety | internal/supervisor/supervisor.go:391-556 | in every reachable state no public id maps to a retired actor, none is retired twice, at most one parked slot exists and none outside a roll, actors and serials are pairwise distinct and cover the same keys, ids are below the counter |
| Registry.CommandsReachLiveActors | internal/supervisor/supervisor.go:337-366 | no step sends a command to an actor already retired |
| Registry.RollIdentity | internal/supervisor/supervisor.go:413-506 | through a roll the id, both actors and the old serial stay the same, and what was observed stays observed |
| Registry.RollEnds | internal/supervisor/supervisor.go:413-556 | when a roll ends no parked slot is left, and the old actor is either back at its id or retired |
| Registry.OldActorStays | internal/supervisor/supervisor.go:375-390 | while a roll remembers neither stability nor a change of the slot, the old actor is parked and not retired and the slot holds the replacement |
| Registry.RollbackRestores | internal/supervisor/supervisor.go:542-556 | a failing roll whose slot still holds the replacement puts the same actor back with its original serial |
| Registry.RememberedHappened | internal/supervisor/supervisor.go:480-497 | what a roll remembers happened: a poll saw the replacement, still in its slot, online for min_uptime, or a user deleted the slot |
| Registry.WholeRoll | internal/supervisor/supervisor.go:375-390 | over a whole roll with any steps in between: the old actor is retired only if some poll of it saw the replacement stable or some step was a delete of the id; else it is back at its id with its serial |
| Registry.FailedRollRestores | internal/supervisor/supervisor.go:375-390 | a roll whose polls never say stable, and whose slot nobody deletes, ends with the old actor back at its id with its serial |
| Registry.OldActorServes | internal/supervisor/supervisor.go:375-390 | and at every point of it the old actor is parked and not retired, and the slot holds the replacement |
| Registry.BeginPublishes | internal/supervisor/supervisor.go:432-458 | beginning a roll puts a new actor under the id with a serial never used, parks the old one with its own, and changes nothing else; a failed start leads to rollback |
| Registry.FailedPollRestores | internal/supervisor/supervisor.go:497-504 | a replacement seen errored, stopped or past listen_timeout is retired and the old actor restored with its serial |
| Registry.StablePollRetires | internal/supervisor/supervisor.go:491-496 | one seen stable keeps the slot and its serial, and the old actor alone is retired |
| Registry.ChangedSlotRetires | internal/supervisor/supervisor.go:485-489 | a slot that changed hands is left as it is, whatever is seen, and the old actor is retired |
| Registry.QuietPollWaits | internal/supervisor/supervisor.go:480-505 | a poll that says nothing yet changes nothing |
| Registry.StartAtTakesId | internal/supervisor/supervisor.go:181-202 | a start at a free id takes it with a serial never used and raises the counter just past it |
| Registry.DeleteFreesId | internal/supervisor/supervisor.go:248-270 | a delete retires the actor at the id and frees the id, and touches nothing else |
| Registry.ListingChangeBumps | internal/supervisor/supervisor.go:97-109 | every change of the public (id, serial) listing raises the version, which never falls |
| Registry.EmptyRewindsIffDeleted | internal/supervisor/supervisor.go:272-278 | the id counter falls only on an empty registry, parked slots included; after any step that ends with an empty registry it is 0 if and only if that step was the delete that emptied it, or it was 0 on an empty registry and no batch took ids |
| Registry.UnbuiltBatchTakesIds | internal/supervisor/supervisor.go:140-160 | a batch of one actor that cannot be built, sent to an empty registry: it stays empty and the next start gets id 1 |
| Registry.EmptyWithoutRewind | internal/supervisor/supervisor.go:529-537 | deleting the only app during its roll leaves an empty registry with the counter where it was |
| Supervisor.RollbackTold | internal/supervisor/supervisor.go:542-556 | what the reload remembers of its roll is enough to undo it |
| Supervisor.Registrar.constructor | internal/supervisor/supervisor.go:82-90 | a new supervisor is the empty registry, and satisfies its invariant |
| Supervisor.Registrar.AssignSerial | internal/supervisor/supervisor.go:105-109 | gives a key the next serial |
| Supervisor.Registrar.StartApps | internal/supervisor/supervisor.go:127-170 | is the batch step and keeps the registry invariant; ids returned are consecutive from the old counter, -1 for an actor that cannot be built |
| Supervisor.Registrar.StartBatch | internal/supervisor/supervisor.go:140-169 | the batch loop on the maps and counters, for any state of them |
| Supervisor.Registrar.StartReplacementAt | internal/supervisor/supervisor.go:181-202 | is the start-at-id step, refused when the id is taken, and keeps the registry invariant |
| Supervisor.Registrar.PublishAt | internal/supervisor/supervisor.go:184-200 | the same on the maps and counters, for any state of them |
| Supervisor.Registrar.Resolve | internal/supervisor/supervisor.go:350-360 | numeric identifiers reach public slots only |
| Supervisor.Registrar.ResetIDIfEmpty | internal/supervisor/supervisor.go:274-278 | rewinds the counter on an empty registry only |
| Supervisor.Registrar.Delete | internal/supervisor/supervisor.go:248-270 | is the delete step, keeps the registry invariant and marks a roll of that slot as touched: the entry goes even when the kill path fails |
| Supervisor.Registrar.Remove | internal/supervisor/supervisor.go:251-269 | the same on the maps and counters |
| Supervisor.Registrar.BeginReload | internal/supervisor/supervisor.go:432-464 | is the step that parks the old actor and publishes the replacement, and keeps the registry invariant |
| Supervisor.Registrar.ParkAndPublish | internal/supervisor/supervisor.go:433-457 | the same on the maps and counters |
| Supervisor.Registrar.Observe | internal/supervisor/supervisor.go:471-504 | a poll sees the replacement stable if and only if it is online for min_uptime, dead if and only if it is errored or stopped, and out of time if and only if neither and the gate has lasted past listen_timeout, with the defaults for unset ones |
| Supervisor.Registrar.PollReload | internal/supervisor/supervisor.go:480-505 | is one turn of the stability gate, and keeps the registry invariant |
| Supervisor.Registrar.RollbackReload | internal/supervisor/supervisor.go:542-556 | is the rollback step, or retirement when a user changed the slot, and keeps the registry invariant; the parked serial it reads is there |
| Supervisor.Registrar.RestoreParked | internal/supervisor/supervisor.go:543-553 | the same on the maps and counters |
| Supervisor.Registrar.StopOld | internal/supervisor/supervisor.go:529-530 | retires the parked actor outside the lock, once, and keeps the registry invariant |
| Supervisor.Registrar.DropOld | internal/supervisor/supervisor.go:531-536 | frees the parked slot and keeps the registry invariant |
| Supervisor.Registrar.FreeParked | internal/supervisor/supervisor.go:532-534 | the same on the maps and counters |
| Ops.SyncReachesTarget | internal/ops/ops.go:103-134 | a sync leaves exactly the listed apps with an active feature running, each for its current serial |
| Ops.SyncIdempotent | internal/ops/ops.go:103-134 | a second sync with the same views stops and starts nothing |
| Ops.LoopStepKeeps | internal/daemon/monit_linux.go:146-163 | registry steps may fall anywhere, between Version and List and between List and Sync: while the remembered version is current, the listing in hand is too, and between ticks the runners are those due |
| Ops.LoopRunKeeps | internal/daemon/monit_linux.go:146-163 | over every run of the loop beside the registry |
| Ops.QuietTickIsFree | internal/daemon/monit_linux.go:150-155 | a tick lists only if the version has moved, and after a whole tick the next one does nothing |
| Ops.DueMeans | internal/ops/ops.go:155-159 | the runners due are those of listed apps with a schedule, a memory limit, a health command or a watch |
| Ops.EachRunnerStoppedOnce | internal/ops/ops.go:103-134 | over every run of the loop each runner ever started either runs or was told to stop, never both, and none is told twice |
| Ops.GatedTickAgrees | internal/daemon/monit_linux.go:146-163 | after any run, once the registry is quiet, a version-gated tick and an eager one leave the same runners: those due |
| Ops.Reconciler.constructor | internal/ops/ops.go:86-98 | starts with no runners |
| Ops.RenewSyncs | internal/ops/ops.go:111-126 | stopping a stale runner and starting a fresh one, if a feature is on, is what a view calls for |
| Ops.Reconciler.Halt | internal/ops/ops.go:395-401 | stops a runner that was not stopped before and forgets it; no other runner is lost |
| Ops.Reconciler.Spawn | internal/ops/ops.go:185-205 | starts a new runner bound to the view's serial |
| Ops.Reconciler.SyncOne | internal/ops/ops.go:111-127 | keeps a current runner, replaces one of another serial, starts a missing one if a feature is active |
| Ops.Reconciler.SyncViews | internal/ops/ops.go:109-127 | the same for every view, none disturbing another |
| Ops.Reconciler.DropUnseen | internal/ops/ops.go:128-133 | stops the runners of ids no longer listed, each once |
| Ops.Reconciler.Sync | internal/ops/ops.go:103-134 | both together; after Stop it does nothing |
| Reaper.StepKeepsInv | internal/proc/reaper_linux.go:81-214 | waiting and cache are disjoint, cached pids are in the order, the cache is within 1024, waited-on channels are empty and distinct |
| Reaper.CacheBounded | internal/proc/reaper_linux.go:204-213 | the cache itself never holds more than 1024 exits |
| Reaper.DeliverNeverBlocks | internal/proc/reaper_linux.go:196-203 | the channel an exit is sent to has room |
| Reaper.CleanIffNotRedelivered | internal/proc/reaper_linux.go:196-223 | order and cache name the same pids, each once, until an exit arrives for a pid still cached, and exactly until then |
| Reaper.CachedIff | internal/proc/reaper_linux.go:205-213 | an unclaimed exit is cached if and only if the order is not full with a left-over of the same pid as its oldest entry |
| Reaper.EvictedIffOldest | internal/proc/reaper_linux.go:204-213 | in any state, another unclaimed exit, cached already or not, pushes a cached one out if and only if 1023 entries follow the first that stands for its pid |
| Reaper.ExitThenRegister | internal/proc/reaper_linux.go:81-98 | an exit of a pid not in the order, then any run of events of other pids with fewer than 1024 unclaimed exits among them, then Register: the channel holds exactly that exit |
| Reaper.RegisterGetsIff | internal/proc/reaper_linux.go:77-98 | in any state, Register after the exit gets it if and only if it was cached and no other exit came in while its pid was next to go; otherwise the channel is empty and waits |
| Reaper.StaleEntry | internal/proc/reaper_linux.go:205-223 | two exits of a pid and one claim leave an order entry with nothing cached |
| Reaper.OneOtherExitLosesIt | internal/proc/reaper_linux.go:205-213 | with such an entry oldest in an order one short of full, the pid's next exit is lost to a single other exit |
| Reaper.ExitLostFromStart | internal/proc/reaper_linux.go:77-80 | for every child pid, a run from start-up in which that happens, so that Register returns an empty channel for an exit one other exit ago |
| Reaper.RegisterThenExit | internal/proc/reaper_linux.go:81-98 | in any state, Register, then any run of events of other pids, then the exit: that channel holds exactly one exit, which is that one unless an earlier exit of the pid was still cached |
| Reaper.NamesakeExit | internal/proc/reaper_linux.go:77-91 | an orphan's unclaimed exit, Register of a living child with its pid, the child's exit: the channel holds the orphan's |
| Reaper.FilledChannelIsLeftAlone | internal/proc/reaper_linux.go:196-214 | a channel nobody waits on is never written again |
| Reaper.DeregisterThenExit | internal/proc/reaper_linux.go:100-106 | after a deregistration the exit is cached like any other, no channel hears of it, and other waiters stay |
| Reaper.ExitReaper.constructor | internal/proc/reaper_linux.go:44-52 | starts empty |
| Reaper.ExitReaper.RegisterPid | internal/proc/reaper_linux.go:81-98 | is the registration step: a cached exit is handed over at once |
| Reaper.ExitReaper.DeregisterPid | internal/proc/reaper_linux.go:102-106 | is the deregistration step |
| Reaper.ExitReaper.CachedExit | internal/proc/reaper_linux.go:109-114 | reports the cached exit without claiming it |
| Reaper.ExitReaper.DeliverExit | internal/proc/reaper_linux.go:196-214 | is the delivery step, trimming loop included |
| Reaper.ExitReaper.RemoveOrder | internal/proc/reaper_linux.go:216-223 | removes the first occurrence of the pid only |
| Policy.SeriesMeaning | internal/machine/machine.go:818-838 | the current series consists of consecutive unstable exits within one window of its first |
| Policy.BurstIsSeries | internal/machine/machine.go:818-838 | and any such burst from an opening exit is the current series |
| Policy.AccountCounts | internal/machine/machine.go:803-838 | one exit keeps the counters equal to the length and start of the current series |
| Policy.UnstableIff | internal/machine/machine.go:816-819 | a run is unstable if it is shorter than min_uptime, or than five seconds if that is more, it failed, and min_uptime is at least a second |
| Policy.WindowIs | internal/machine/machine.go:807-811 | the window is min_uptime for each restart allowed, and at least a minute if min_uptime is a second or more |
| Policy.OverBudgetExactly | internal/machine/machine.go:803-848 | an exit uses up the budget if and only if the last MaxRestarts exits are unstable, within one window of the first of them, which opened a series |
| Policy.CrashDensity | internal/machine/machine.go:803-848 | in an unbroken run of unstable exits that never parks, any stretch shorter than the window holds at most 2 * (MaxRestarts - 1) |
| Policy.GrowsIff | internal/machine/machine.go:1036-1048 | a backoff sleep is followed by a longer one if and only if it is at least 2 ns and below the cap |
| Policy.SleepCurve | internal/machine/machine.go:1036-1048 | sleeps rise strictly until they equal the cap and then stay there |
| Policy.HalfAgain | internal/machine/machine.go:1036-1048 | the first sleep is the base, and each next one the one before and half of it again, rounded down, or the cap if that is less |
| Policy.SleepOtherwise | internal/machine/machine.go:1036-1048 | a base of 1 ns never grows; a base above the cap is used once and then cut to the cap |
| Policy.SleepGrowth | internal/machine/machine.go:1036-1048 | 3^k * sleep_k >= 4^k * base below the cap, so only logarithmically many crashes precede the cap |
| Actor.StartStates | internal/machine/machine.go:215-279 | a fresh and an adopted actor start inside the loop invariant |
| Actor.StepKeepsInv | internal/machine/machine.go:319-372 | every event the loop can take keeps it: never stopping, waiting iff a timer is parked, running implies a held tree, launching implies the current launch's own ready timer, null created_at implies parked, counter below the budget |
| Actor.RunKeepsInv | internal/machine/machine.go:319-372 | so does every run |
| Actor.NullCreatedNeverCrashes | internal/machine/machine.go:811-813 | the zero-window branch is unreachable |
| Actor.LeaksIff | internal/machine/machine.go:378-397 | a launch over a held tree happens if and only if Start reaches an errored app that kept its tree |
| Actor.LeakExample | internal/machine/machine.go:378-397 | Start, a failed stop, Start: the second tree replaces the first, which still runs |
| Actor.NoLeakUnderSupervisor | internal/supervisor/supervisor.go:164-164 | a built actor that is sent Start first and never again loses no tree, over every run |
| Actor.NoLeakWhenAdopted | internal/supervisor/supervisor.go:207-224 | nor does an adopted one, which is never sent Start |
| Actor.NoStartNoLeak | internal/machine/machine.go:319-372 | nor any actor in a run without Start |
| Actor.StartOutcome | internal/machine/machine.go:378-397 | start leaves a running app alone, else starts a process; from waiting it counts a restart and keeps the epoch, else it opens a fresh one |
| Actor.StopOutcome | internal/machine/machine.go:405-449 | stop and delete end stopped without a tree, or errored with the surviving one, record a known exit and start nothing |
| Actor.RestartOutcome | internal/machine/machine.go:412-431 | restart, unless the kill path fails, counts one restart and starts a process in a fresh epoch |
| Actor.ParkOutcome | internal/machine/machine.go:365-369 | when the restart timer fires a process is started in the same epoch and counted |
| Actor.ReadyOutcome | internal/machine/machine.go:670-689 | ready, or its deadline, opens the gate and does nothing else |
| Actor.ExitOutcome | internal/machine/machine.go:735-800 | an exit ends stopped if and only if its tree is cleaned up and no restart is wanted, errored with the tree if it cannot be cleaned up; unless a process is started at once the exit is shown as it was |
| Actor.ExitRestarts | internal/machine/machine.go:849-871 | an exit the policy does not park waits for its delay, or is followed by a start at once that counts as a restart |
| Actor.FixedDelay | internal/machine/machine.go:1047-1047 | without backoff the delay is the configured one, every time |
| Actor.StartedTold | internal/machine/machine.go:649-649 | the start time the policy measures from is that of the last start the events tell of |
| Actor.TracedStepFaithful | internal/machine/machine.go:735-871 | the counters describe the exits of the current epoch after every event, each judged by the time since the last start as the events tell it |
| Actor.TracedRunFaithful | internal/machine/machine.go:735-871 | and over every run with a nondecreasing clock |
| Actor.ParkedExactly | internal/machine/machine.go:839-855 | an exit parks the actor errored by policy if and only if the last MaxRestarts exits of the epoch form one burst from an opening exit |
| Actor.UnparkedHistory | internal/machine/machine.go:839-855 | over every run, an actor not parked by policy has an epoch in which no exit used up the budget, so the density bound applies |
| Actor.FreshFaithful | internal/machine/machine.go:235-279 | a fresh actor starts with an empty, faithful history |
| Actor.ParkedOverRuns | internal/machine/machine.go:839-855 | after any run from a fresh or adopted start, an exit parks the actor by policy if and only if the last MaxRestarts exits of the epoch, each judged by the time since the last start as the events tell it, form one burst from an opening exit |
| Actor.DensityOverRuns | internal/machine/machine.go:803-855 | after any such run that has not parked it, a stretch of unstable exits shorter than the window holds at most 2 * (MaxRestarts - 1) |
| Actor.AdoptedFaithful | internal/machine/machine.go:215-231 | so does an adopted one |
| Actor.RunOnCurve | internal/machine/machine.go:857-871 | over every run, until the policy parks the app, the remembered delay is the curve's point for the last exit since the reset |
| Actor.BackoffFollowsCurve | internal/machine/machine.go:857-871 | after any run from a fresh or adopted start, the k-th exit since the reset, unless parked, waits for the k-th point of the backoff curve |
| Actor.App.constructor | internal/machine/machine.go:235-279 | a built actor is the fresh state |
| Actor.App.Adopt | internal/machine/machine.go:215-231 | an adopted one is online with its tree held |
| Actor.App.DoResetState | internal/machine/machine.go:426-431 | opens a fresh crash epoch; the series timestamp is left |
| Actor.App.DoLaunch | internal/machine/machine.go:587-665 | launching: online, or gated with its own ready timer, or errored without a tree |
| Actor.App.DoRelaunch | internal/machine/machine.go:725-730 | counts a restart and launches |
| Actor.App.DoStopTree | internal/machine/machine.go:521-553 | a failed kill keeps the tree and leaves the app errored; a successful one stops it and records the exit |
| Actor.App.HandleStart | internal/machine/machine.go:378-397 | start in each of the six states |
| Actor.App.HandleStop | internal/machine/machine.go:405-408 | stop cancels the restart timer first |
| Actor.App.HandleRestart | internal/machine/machine.go:412-421 | a failed kill ends a restart, else reset, count, launch |
| Actor.App.HandleDelete | internal/machine/machine.go:435-449 | delete ends stopped, or errored when the kill path fails |
| Actor.App.HandleReady | internal/machine/machine.go:670-689 | ready and its deadline act only while launching |
| Actor.App.HandlePark | internal/machine/machine.go:365-369 | the restart timer relaunches |
| Actor.App.DoAccount | internal/machine/machine.go:803-848 | the stability bookkeeping on the fields is the policy's accounting |
| Actor.App.IsStopExit | internal/machine/machine.go:787-793 | the loop finds whether the exit code is a stop code |
| Actor.App.DoDecide | internal/machine/machine.go:803-871 | parks, waits or relaunches as the policy says |
| Actor.App.HandleExit | internal/machine/machine.go:735-871 | a leader's exit is the exit step: tree cleaned first, result recorded, then policy |
| Calendar.YearLength | internal/cron/cron.go:250-277 | leap years follow the Gregorian rule |
| Calendar.MonthLength | internal/cron/cron.go:297-303 | the first of the next month is the month's length later |
| Calendar.DateOfNumber | internal/cron/cron.go:250-277 | every day number has a valid date, whose number it is |
| Calendar.DateOfUnique | internal/cron/cron.go:250-277 | and it has no other |
| Calendar.NumberOrder | internal/cron/cron.go:250-277 | day numbers follow calendar order |
| Calendar.Reading | internal/cron/cron.go:250-277 | a minute is rebuilt from its calendar reading |
| Calendar.ReadInstant | internal/cron/cron.go:250-277 | a valid reading is read back from its minute |
| Calendar.NextMidnight | internal/cron/cron.go:259-262 | day plus one at 00:00 is the start of the next day, month ends included |
| Calendar.NextHour | internal/cron/cron.go:263-268 | hour plus one is the start of the next hour, midnight included |
| Calendar.SameMonth | internal/cron/cron.go:297-303 | every minute before the next month lies in this month |
| Calendar.NextWeekday | internal/cron/cron.go:283-283 | weekdays follow one another in sevens |
| Calendar.EpochWeekday | internal/cron/cron.go:283-283 | 1 January 1970 was a Thursday, 719162 days after the first day of year 1 |
| CronNext.MonthSkipSound | internal/cron/cron.go:255-258 | skipping to the next month passes over no match |
| CronNext.DaySkipSound | internal/cron/cron.go:259-262 | nor does skipping to the next day |
| CronNext.HourSkipSound | internal/cron/cron.go:263-268 | nor to the next hour |
| CronNext.FirstMinuteIs | internal/cron/cron.go:251-251 | the search begins at the first minute boundary strictly after the instant |
| CronNext.LimitReading | internal/cron/cron.go:252-252 | and its window ends four years and a day later at the same time of day |
| CronNext.Next | internal/cron/cron.go:250-277 | the search terminates with the earliest minute strictly after the instant that matches, if the window holds one: no minute after the instant and before it matches; with none otherwise |
| CronNext.EarliestIsEveryMinute | internal/cron/cron.go:250-277 | which is what trying every minute finds |
| CronNext.CheckFeasible | internal/cron/cron.go:140-160 | accepts if and only if the weekday is restricted or some allowed day exists in an allowed month |
| CronNext.FeasibleMeans | internal/cron/cron.go:142-146 | it turns away exactly the schedules that never fire |
| CronNext.OrdinaryDayFires | internal/cron/cron.go:245-249 | a schedule with an allowed day other than 29 February fires within two years |
| CronNext.FirstTime | internal/cron/cron.go:263-272 | every parsed schedule has an allowed time of day before all others |
| CronNext.LastTime | internal/cron/cron.go:263-272 | and one after all others |
| CronNext.FiresExactly | internal/cron/cron.go:245-249 | an accepted schedule fires in the window if and only if it has such a day or a leap day is in reach of its first and last time of day |
| CronNext.NextExactly | internal/cron/cron.go:250-277 | the search returns a time exactly then |
| CronNext.AcceptedFires | internal/cron/cron.go:245-249 | accepted schedules fire whenever the window holds a 29 February |
| CronNext.FourYearsAroundNow | internal/cron/cron.go:252-252 | every four-year window from 1901 to 2095 does |
| CronNext.EightYears | internal/cron/cron.go:252-252 | every eight-year window does |
| CronNext.EightYearsSuffice | internal/cron/cron.go:245-249 | so with eight years every accepted schedule would always fire |
| CronNext.LeapDayMissed | internal/cron/cron.go:275-276 | on 1 March 2096 every schedule confined to leap days has no match in its window |
| CronNext.LeapMidnightAccepted | internal/cron/cron.go:140-160 | and such schedules are accepted |
| CronFields.ParseElement | internal/cron/cron.go:180-223 | an accepted element lies within the field's bounds and has a positive step |
| CronFields.SetBits | internal/cron/cron.go:224-226 | the loop with its 64-bit addition sets exactly the bits of the specification |
| CronFields.SmallStepBits | internal/cron/cron.go:224-226 | short steps set exactly the multiples in the range |
| CronFields.HugeStepBits | internal/cron/cron.go:224-226 | what a step that can overflow sets |
| CronFields.BitsExactIff | internal/cron/cron.go:224-226 | an element's bits are what it denotes if and only if its start plus two steps stays below 2^64 |
| CronFields.ElementBitsExactly | internal/cron/cron.go:224-226 | for every step, the bits are those denoted and, when the step is long enough to overflow, every (2^64 - 2 * step)-th value below the start |
| CronFields.WrappedStepExample | internal/cron/cron.go:224-226 | 5/9223372036854775807 also sets bit 3 |
| CronFields.ParseField | internal/cron/cron.go:177-229 | accepts if and only if every list element parses, and returns the union of their bits |
| CronFields.FieldMeaning | internal/cron/cron.go:177-229 | when no step wraps, bit v is set if and only if some element denotes v; the set is nonempty and within bounds |
| CronFields.FieldExactly | internal/cron/cron.go:177-229 | for every accepted field, the bits are what its elements denote and what their loops come back to; they are what it denotes if and only if the latter is denoted too |
| CronFields.FieldBounded | internal/cron/cron.go:177-229 | every accepted field sets a bit within its bounds and none above them |
| CronFields.FoldKeepsMeaning | internal/cron/cron.go:124-130 | folding weekday 7 onto 0 allows exactly the days named modulo 7 |
| CronFields.ReadsUnique | internal/cron/cron.go:92-138 | five fields determine the schedule |
| CronFields.ReadsInRange | internal/cron/cron.go:92-138 | when no step wraps, every bit of a parsed schedule is one its field can have |
| CronFields.ReadsAccepted | internal/cron/cron.go:92-138 | every schedule that is read, if feasible, is one the search's guarantees apply to, wrapped steps or not |
| CronFields.AliasMeaning | internal/cron/cron.go:81-90 | when each alias fires: yearly, monthly, weekly on Sunday and daily at midnight, hourly at minute 0 |
| CronFields.NamesInOrder | internal/cron/cron.go:53-60 | month names are 1 to 12 and day names 0 to 6 from Sunday, in calendar order, and there are no others |
| CronFields.AliasAccepted | internal/cron/cron.go:81-103 | every @alias is a schedule the search's guarantees apply to, and has an ordinary day |
| CronFields.WordsSpaced | internal/cron/cron.go:104-107 | words written with any blanks between them are read back |
| CronFields.TrimPads | internal/cron/cron.go:93-93 | blanks around the text are dropped, and nothing else |
| CronFields.Parse | internal/cron/cron.go:92-138 | an expression parses if and only if it is an alias, or five fields that name a schedule that can fire, and to that schedule |
| CronFields.ParsedAccepted | internal/cron/cron.go:92-160 | it names one schedule, and one the search's guarantees apply to |
| CronFields.ParsedFires | internal/cron/cron.go:140-160 | every schedule that parses, aliases included, fires whenever the window holds a 29 February |
| CronFields.ParsedNext | internal/cron/cron.go:248-277 | so the search returns a time for it then, and otherwise exactly when it has an ordinary day or a leap day in reach |
| CronFields.ParseFields | internal/cron/cron.go:92-138 | returns the schedule the fields determine if it can fire, and fails only when there is none |
| CronText.ParseRendered | internal/cron/cron.go:180-243 | every written element (star, value, range, with or without step; values as numbers or as month and weekday names in any case) parses to its meaning |
| CronText.EmptyStep | internal/cron/cron.go:184-196 | a slash with nothing after it is no step |
| CronText.StepsPositive | internal/cron/cron.go:188-195 | a step is a positive 64-bit number; zero and negative ones are errors |
| CronText.AtoiSigned | internal/cron/cron.go:234-236 | numbers are decimal with an optional sign and end where 64 bits end |
| CronText.SplitJoin | internal/cron/cron.go:179-180 | splitting a comma list gives back its elements |
| CronText.WrittenFieldMeaning | internal/cron/cron.go:177-229 | round trip: a written list sets exactly the values its elements mean |
| CronText.AliasParses | internal/cron/cron.go:93-103 | an alias is recognised in any case and with blanks around it |
| CronText.FieldsParse | internal/cron/cron.go:104-137 | five words with blanks between and around them are the five fields, unless the text is an alias |
| CronText.RejectedIffNeverFires | internal/cron/cron.go:131-137 | of the expressions whose five fields can be read, exactly those that never fire are turned away |
| CronText.ExpressionMeaning | internal/cron/cron.go:13-15 | an expression whose steps do not wrap fires at a minute if and only if its fields name the minute, the hour and the month, and the day by either day field when neither is a star, else by the one that is not |

## Left out

- Pump.CaptureExactlyOnce: assumes what the head-skip guard asks for at every wake-up and no I/O error, and is about files only the child and the pump write; Pump.ShrunkWakeCaptures and Pump.CaptureRecovers say what holds when others empty or remove them. A file emptied and grown past the old offset before the pump looks is not told from one that only grew, as in the source.
- Pump.RunWrites: its steps take a copy and its truncate as one; bytes landing in between are the subject of Pump.WindowLosesExactly.
- Pump.TickTracks: takes a copy and its truncate as one step, as Pump.RunWrites does.
- Pump.SinkPump.Tick: a line limit of 64 MiB or more is excluded (only the 8 KiB default is ever configured); rotated names and their pruning, poll intervals and notifications are not modelled.
- Pump.SinkPump.ReadNewIntoPrefix: reads return all bytes asked for; only the negative seek fails.
- Route.LogRoute.AppendLines: entry timestamps, drop notifications and the text of markers are not modelled; when consumers run is a parameter.
- Attach.ClientExact: is about one route; merging the routes of several apps and the file fallback for apps without one are not modelled.
- Registry.ReloadSafety: identifiers are numeric, as the daemon always passes; addressing by name also scans parked slots. The counters do not wrap.
- Registry.CommandsReachLiveActors: covers commands sent under the registry lock; TreePids sends after releasing it.
- Registry.RollEnds: is safety only; the replacement's status and the clocks of a roll are parameters, and polls come when they come.
- Supervisor.Registrar.StartReplacementAt: ids restored from a dump are taken to be non-negative; PublishAt is stated for any id.
- Supervisor.Registrar.StartApps: configurations, `fill`, the order of List and adopted handles are not modelled; RegisterAt changes the registry as StartReplacementAt does.
- Ops.GatedTickAgrees: the version stays below 2^64 - 1, the loop's start value; runner goroutines (cron, memory, health, watch steps) and the reconciler's Stop are outside the model.
- Reaper.RegisterThenExit: the wait loop that feeds exits, its idle polling and its wake-ups are outside the model.
- Actor.StepKeepsInv: launching and killing are oracles; signals, environment updates, tree listings, pid files and the shutdown message to cluster workers do not touch the modelled fields.
- Actor.TracedRunFaithful: instants of one run do not decrease.
- Policy.SleepGrowth: durations are unbounded integers.
- CronNext.Next: second and sub-second precision only decides the first candidate; instants are unbounded.
- CronFields.Parse: blanks and letters are ASCII; the kept text of the expression and MustParse are not modelled. Field bits are sets of values rather than shifted words.
- Killing process trees, control groups, /proc scans, the control socket, gRPC and HTTP, persistence, the command line and the site.
