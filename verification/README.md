# PostcardScene: verified models of its protocols

A Dafny project beside the PostcardScene repository. It models the parts of the program whose
correctness depends on what happens across crashes, interleavings and long runs, and proves what they
promise for every run, every interleaving and every input.

Verify it with `dafny verify dfyconfig.toml`.

## What is modelled

| module | what it is about |
|---|---|
| `UpdateModel`, `UpdateRun` | The forward update of a managed installation. `Disk` is everything durable (phase file, database head, assets, link, releases, units); every durable effect passes through `Updater.Durably`, which may raise or be killed before or after it. `Safe` holds after every single step; a calm rerun from any state left by any history ends finished. |
| `SchemaChain` | The migration graph inside a wheel and the forward check between two wheels. |
| `CatalogModel`, `CatalogWorker` | One Source's catalog as a machine of atomic transactions, and a reconciliation attempt and the refresh consumer run against arbitrary foreign transactions between any two of their own. |
| `MediaStream`, `StreamPlan` | Candidate selection and one Widget's stream, with pair lookahead and the held-back candidate. |
| `PlannerModel`, `PlannerRun`, `DisplayPlanner` | The display planner as a value, whole runs of it, and the object that is proved to compute it in place. |
| `PanelModel`, `PanelWorker` | The panel coordinator against clients inside and outside its lock, and three power backends that may answer anything. |
| `PresentationTrace`, `PlaybackState` | The language of presenter calls and the playback state machine, with every call able to fail. |
| `MailboxModel`, `PlaybackWorker` | The command mailbox, its Futures and cancel tokens, and the playback thread. |
| `RestoreModel`, `RestoreRun` | The restore transaction with a fault possible at every step, and its rollback. |
| `LimiterModel`, `LoginLimiter` | Login admission: the sliding window, reservations and eviction. |

Conventions. `if *` and `:= *` stand for whatever the outside world decides: faults, kills, answers of
backends, other threads, the clock. A method named `Interfere` takes any number of steps of other
threads; workers call it wherever they do not hold their lock. A `calm` flag or argument says that no
fault happens, and that nobody stops or disturbs the worker. Worker loops take the number of rounds as an argument, so a statement about them is one
about every finite run. Ghost fields record history (call traces, logs, who is asleep) and are only
read by specifications.

## Model

| member | source | states |
|---|---|---|
| UpdateModel.SafeIsRecognized | install_update_finish.py:33-91 | A rerun is never locked out: on every safe disk with a phase the recogniser for that phase accepts, and after commit its verdict is exactly whether the link is the target's. |
| UpdateModel.RecognizedIsAfterCommit | install_update_finish.py:33-91 | What recognition leaves open: a disk it accepts after commit is one this update can have left if and only if the head is the target and nothing behind a switched link is unconverged. |
| UpdateModel.RecognizedIsBeforeCommit | install_update.py:163-196 | Before commit nothing but the head is left open: a disk it accepts is one this update can have left if and only if the head is the source's, or the target's while migrating. |
| UpdateModel.RecognitionIsNotEnough | install_update_finish.py:56-68 | Recognition also accepts disks no update leaves: a switched link over old assets, the old release still there. |
| UpdateModel.FinishedIsRefused | install_update.py:163-198 | A finished disk is refused by both recognisers, whether its units are up or not. |
| UpdateModel.StagesExclusive | install_update_transaction.py:92-127 | Until `committed` is durable link, assets and old release are old and the head is old, or the target's while `migrating`; a target link implies target assets; a damaged old release implies both. |
| UpdateModel.FewerUnits | install_update_transaction.py:14-46 | Retiring units is safe in every stage and loses no progress. |
| UpdateModel.MoreUnits | install_update_finish.py:152-161 | After commit a unit may run or be startable if and only if the link means the target, or both schemas are the same. |
| UpdateModel.ForwardTransitive | install_update_finish.py:136-161 | Progress (commit, converted assets, switched link, removal of the old release) composes over steps. |
| UpdateRun.Updater.Durably | install_update_state.py:88-104 | One durable step, possibly interrupted before or after its effect, keeps the disk safe and loses no progress. |
| UpdateRun.Updater.WriteState | install_update_state.py:88-104 | The phase file changes at once or not at all; its scratch sibling is all that else can change. |
| UpdateRun.Updater.Upgrade | install_update_transaction.py:49-58 | The update gate as a precondition nothing can bypass: lock held, nothing running or startable, phase `migrating`, old head, archive of the old version and schema verified in this run. |
| UpdateRun.Updater.SwitchAsset | install_update_assets.py:58-59 | An asset is switched only after commit, under the lock, with every unit retired. |
| UpdateRun.Updater.SwitchLink | install_update_assets.py:85-89 | The link is switched only onto fully converged and reloaded assets, with every unit retired. |
| UpdateRun.Updater.RemoveOld | install_update_finish.py:129-133 | The old release is deleted only behind a switched link and once every service is active and enabled; a kill may leave it torn, nothing else. |
| UpdateRun.Updater.Quiesce | install_update_transaction.py:14-46 | Every unit is attempted in order even after a failure, unless the process is killed or an interrupt strikes between two attempts; success means nothing runs and nothing would start; only units change, and only downwards. |
| UpdateRun.Updater.Retire | install_update_transaction.py:14-46 | One retiring effect, possibly interrupted on either side; what takes effect without a phase file is recorded. |
| UpdateRun.RetirementIsWhole | install_update_transaction.py:24-44 | A retirement attempted every unit if and only if no interrupt struck between two attempts. |
| UpdateRun.CutShortRun | install_update_transaction.py:24-44 | On every committed disk with the web server running there is a retirement that leaves it running and unattempted. |
| UpdateRun.Updater.DiscardTarget | install_update.py:217-230 | Only the exact staged target may go, and only without a phase. |
| UpdateRun.Updater.Stage | install_update.py:268-285 | Staging touches the target's release directory alone; success leaves the whole target. |
| UpdateRun.Updater.PrepareTarget | install_update.py:233-296 | Accepts every safe unfinished disk, writes no phase, and ends with an intact staged target; a finished disk is refused untouched. |
| UpdateRun.Updater.Select | install_update_transaction.py:103-119 | Success needs an archive whose version and schema are the installed release's: the one chosen, or one made now while the database has that schema; while `migrating` only with everything retired. |
| UpdateRun.Updater.TargetDatabase | install_update_transaction.py:49-76 | Success means the head is the target's; without `upgrade` nothing is written. |
| UpdateRun.Updater.Commit | install_update_transaction.py:92-127 | From any accepted phase to a durable `committed` over the target schema, with nothing running unless the switched link already means the target, when nothing is touched; without an admissible archive nothing is upgraded, begun or, unless already migrated, committed. |
| UpdateRun.Updater.EnterPrepared | install_update_transaction.py:102-107 | First the archive, then the phase file, then downtime: a changed phase implies the verified archive, changed units imply both, and an archive is held only if an admissible one was chosen or could be made. |
| UpdateRun.Updater.ResumeMigrating | install_update_transaction.py:108-119 | An already migrated database needs no archive; an old head, or equal schemas, pass a fresh gate with everything retired, by an admissible archive. |
| UpdateRun.Updater.Migrate | install_update_transaction.py:120-124 | Behind the gate: re-classify, record `migrating`, upgrade, check. |
| UpdateRun.Updater.Lock | install_update_transaction.py:142-148 | A busy operation lock is not waited for: without it nothing is begun. |
| UpdateRun.GatedStays | install_update_transaction.py:92-127 | The gate holds over whole stretches of a run: what follows a commit, or moves neither head nor phase, cannot undo it. |
| UpdateRun.Updater.ReplaceFile | install_update_assets.py:36-59 | One asset is finished from whatever an interrupted run left of it and its sibling. |
| UpdateRun.Updater.ReplaceLink | install_update_assets.py:76-89 | The link is finished from whatever an interrupted run left, only over converged assets. |
| UpdateRun.Updater.Converge | install_update_finish.py:136-150 | Assets, reload, link: ends with target link and assets and nothing pending; behind a switched link no unit is touched. |
| UpdateRun.Updater.ActivateServices | install_update_finish.py:152-158 | Success means every service is enabled and active. |
| UpdateRun.Updater.RetireOld | install_update_finish.py:125-133 | Resumes a torn removal and leaves only the target release. |
| UpdateRun.Updater.FinishLocked | install_update_finish.py:136-161 | On success everything but the phase file is final; the old release is touched only once every service is active and enabled; a resumed finish behind a switched link stops and disables nothing. |
| UpdateRun.Updater.UnderLock | install_update_transaction.py:142-164 | Commit and finish under the lock lose no progress; a failure behind a durable `committed` is followed by the retirement of every unit, unless an interrupt strikes or the phase file cannot be read back. |
| UpdateRun.Updater.Transact | install_update_transaction.py:130-175 | Commit and finish happen only under the lock; a target staged in vain is discarded, or that was tried. |
| UpdateRun.Updater.RetireCommitted | install_update_transaction.py:154-164 | The handler of a committed failure: a retirement, or nothing for want of the phase file. |
| UpdateRun.Updater.Conclude | install_update_finish.py:173-182 | The phase file goes last: once it is gone the disk is finished with every service and the timer up and enabled. |
| UpdateRun.Updater.Recommit | install_update_finish.py:183-200 | A phase file already gone is restored before units are retired: without one units are touched only if reading or writing it back has failed. |
| UpdateRun.Updater.RetireUnrestored | install_update_finish.py:183-200 | Every unit is retired with or without a phase file; without one that restoring it failed is on record. |
| UpdateRun.Updater.DownIsOnRecord | install_update_finish.py:183-200 | On every finished disk a unit is down if and only if a retirement took one down there, after restoring the phase file failed. |
| UpdateRun.Updater.Execute | install_update_finish.py:164-200 | One invocation: safe and monotone however interrupted, upgrading, beginning and committing nothing without the gate; one that fails behind a commit it worked on has retired every unit, but for the interrupts and the unread phase file on record; and left alone it turns every unfinished safe disk into the finished one with services and timer up. |
| UpdateRun.Updater.OperatorRestore | install_update_transaction.py:108-119 | A same-version restore before commit keeps the disk safe and in the uncommitted stage. |
| UpdateRun.Updater.History | install_update_finish.py:164-200 | Any history of interrupted invocations, reboots and permitted restores keeps the disk safe and loses no progress. |
| UpdateRun.Updater.HistoryThenRerun | install_update_finish.py:164-200 | After any such history one undisturbed rerun ends the update; on the finished disk every service and the timer is up if and only if no retirement took effect on a finished disk, and none does unless restoring a phase file had failed before. |
| UpdateRun.StrandedRun | install_update_finish.py:183-200 | From every disk converged up to its phase file there is a run that ends finished with every unit stopped and disabled. |
| SchemaChain.ReadRevisions | install_inputs.py:248-275 | A graph is built exactly when no file is malformed and no revision is declared twice, and it says exactly what the files say. |
| SchemaChain.WalkChain | install_inputs.py:282-290 | The walk ends and accepts exactly the graphs that are one chain from the head to a root. |
| SchemaChain.MigrationGraph | install_inputs.py:248-291 | Accepted if and only if the application identifier is right and the files are one chain from the head to a root written out; the graph says exactly what they say. |
| SchemaChain.AcceptedIsWritten | install_inputs.py:248-291 | Over the assignments: what is read and walked successfully is exactly one well-named file for each revision of one chain, in any order, each naming the next as its parent, among foreign members and empty package markers. |
| SchemaChain.ChainIsUnique | install_inputs.py:282-290 | An accepted graph has one chain. |
| SchemaChain.ForwardIsOlderEnd | install_inputs.py:310-321 | For accepted wheels the forward check holds if and only if the current chain is the older end of the target's. |
| SchemaChain.SameHeadSameGraph | install_inputs.py:310-321 | Equal heads cannot hide a different ancestry. |
| CatalogModel.RunKeepsConsistent | src/postcardscene/catalog_reconciliation.py:37-181 | On every run: `ready` dimensions come from inspecting exactly the row's present type, size and mtime under the present authority, no row claims an unstarted generation, completion and handling stay within bounds, row identities are distinct. |
| CatalogModel.ApplyKeepsConsistent | src/postcardscene/catalog_reconciliation.py:69-181 | The step of that invariant, for each kind of transaction. |
| CatalogModel.ApplyIsMonotone | src/postcardscene/catalog.py:158-169 | No transaction lowers the scan, requested or handled counter. |
| CatalogModel.ServedBounds | src/postcardscene/runtime/catalog_refresh.py:35-82 | Handled never passes what was served, served never what was requested. |
| CatalogModel.NoLostRefresh | src/postcardscene/runtime/catalog_refresh.py:35-82 | Whenever handled has passed a token, a scan started, was refused as invalid or was superseded by an edit after that token was committed. |
| CatalogModel.EditEndsAttempts | src/postcardscene/domain.py:148-162 | An edit that changes kind, path or recursion, or disables the Source, ends every attempt, leaves nothing interrupted and no request; a changed Source starts from an empty catalog; any other edit leaves both alone. |
| CatalogModel.InvalidateEndsAttempts | src/postcardscene/catalog.py:172-184 | Dropping the catalog ends every attempt as well. |
| CatalogModel.RequestOpensToken | src/postcardscene/catalog_requests.py:8-25 | A request for an enabled filesystem Source opens one more token and touches nothing else. |
| CatalogModel.ForeignTransactionRelies | src/postcardscene/catalog_reconciliation.py:62-66 | The fence: no transaction of anybody else touches the rows of an attempt that is and stays current. |
| CatalogModel.ObservedRow | src/postcardscene/catalog_reconciliation.py:69-94 | Observing keeps row identity and inspection of an unchanged file, has a changed image inspected again, and gives a new file an identity never used before. |
| CatalogModel.ObserveMore | src/postcardscene/catalog_reconciliation.py:69-94 | Batches add up: observing a batch after what was observed is observing both, whatever the batch boundaries. |
| CatalogModel.ObservedAndNoneAbsent | src/postcardscene/catalog_reconciliation.py:106-124 | Everything observed and nothing left to remove is exactness. |
| CatalogModel.ObserveThenRemove | src/postcardscene/catalog_reconciliation.py:127-140 | Observations first and removals only behind a complete enumeration: at every removal of such a history all entries had been observed. |
| CatalogWorker.CatalogDatabase.Start | src/postcardscene/catalog_reconciliation.py:37-59 | A started attempt has a generation of its own under the Source's present authority and no row yet carries it; a disabled Source and one of another kind are invalid, and a token handled or never requested is superseded, exactly. |
| CatalogWorker.CatalogDatabase.Observe | src/postcardscene/catalog_reconciliation.py:69-94 | One observation transaction: applied whole for the current attempt, nothing otherwise; refused exactly for a path longer than 4096 bytes. |
| CatalogWorker.CatalogDatabase.RemovePage | src/postcardscene/catalog_reconciliation.py:106-124 | One page removes only rows this attempt did not see, those of the lowest ids, at least one while any is left. |
| CatalogWorker.CatalogDatabase.Finish | src/postcardscene/catalog_reconciliation.py:97-103 | Completion and result are recorded, and nothing else, for the current attempt alone. |
| CatalogWorker.CatalogDatabase.PendingPage | src/postcardscene/catalog_reconciliation.py:143-165 | The page holds the next rows wanting inspection by ascending id, no more than asked for, empty only if none does. |
| CatalogWorker.NeedyAreUninspected | src/postcardscene/catalog_reconciliation.py:143-165 | What wants inspecting are exactly the images never inspected, or not successfully, behind the position. |
| CatalogWorker.CatalogDatabase.Save | src/postcardscene/catalog_reconciliation.py:168-181 | A result is stored, exactly as it is, when the attempt is current and the row still is the inspected image; otherwise nothing changes. |
| CatalogWorker.ObserveBatches | src/postcardscene/catalog_reconciliation.py:127-140 | With any batch size and any interleaving the attempt commits nothing but observations, of the entries from their start, and of all of them when the enumeration was exhausted; then the rows are observed exactly. Undisturbed it exhausts it, unless a path is too long. |
| CatalogWorker.RemoveAbsent | src/postcardscene/catalog_reconciliation.py:106-124 | Terminates and leaves exactly the enumerated entries while the attempt is current, and does so when nothing disturbs it. |
| CatalogWorker.Presence | src/postcardscene/catalog_reconciliation.py:127-140 | Catalog exactness: a successful presence pass commits its result with the rows being exactly the entries enumerated; and at every removal the attempt committed, its own observations before it had enumerated all entries, however it ended. |
| CatalogWorker.InspectPage | src/postcardscene/catalog_reconciliation.py:190-222 | The attempt commits one save for each entry of the page, in its order, each with what inspecting that entry yielded, for all of them on success; while it stays current only the metadata of the page changes, and the rows hold what was saved. |
| CatalogWorker.InspectNext | src/postcardscene/catalog_reconciliation.py:190-222 | Every page advances the paging position; its saves are of different rows behind the old position, as they stood; what wanted inspecting has been saved or still waits. |
| CatalogWorker.InspectAll | src/postcardscene/catalog_reconciliation.py:190-222 | The paging loop terminates; all the attempt commits are saves of pairwise different rows as they stood, of what their inspections yielded in that order; a pass that ends normally, and an undisturbed one does, has saved every row that wanted inspecting; and while the attempt is current the rows hold it. |
| CatalogWorker.Attempt | src/postcardscene/catalog_reconciliation.py:254-295 | At one point of the log a normally ended attempt had the rows exactly as enumerated, recorded as success, and what wanted inspecting there it has inspected; while it is current the rows hold what it saved. Undisturbed it ends normally, unless a path is too long, and its scan is recorded as completed either way. |
| CatalogWorker.Reconcile | src/postcardscene/catalog_reconciliation.py:225-295 | Unless a stop or a crash prevents it, a gated attempt leaves its request served or handled; it handles no request itself, and however it ends it removed nothing before its enumeration was complete. A normal end has committed success over exactly the enumeration and then inspected every row that wanted it; while it is current the rows hold what it saved. Where nothing fails, stops or interferes, it ends normally, refused exactly by the Source, its token or a path that is too long. |
| CatalogWorker.ConsumeOne | src/postcardscene/runtime/catalog_refresh.py:35-82 | The consumer handles a request only after it was served; when the attempt was cancelled with the stop event set, nothing is handled; otherwise the token ends handled, or the attempt crashed or was left interrupted; with the stop event set nothing is even begun; an untaken turn had nothing to do. Undisturbed, a pending request of a Source that can be reconciled is taken, reconciled and handled. |
| CatalogWorker.MarkHandled | src/postcardscene/runtime/catalog_refresh.py:73-81 | A token not handled over an incomplete newest scan is an error that changes nothing; otherwise it ends handled. |
| MediaStream.OrderedSuccessor | src/postcardscene/media_stream.py:42-50 | Keyset selection after an eligible path yields the next one, wrapping at the end. |
| MediaStream.OrderedNext | src/postcardscene/media_stream.py:42-50 | The item after a cursor is the first eligible path behind it, whether the cursor's own path is still there or not; behind the last one, without a cursor and behind one of another Source the list starts over. |
| MediaStream.SelectCandidate | src/postcardscene/media_stream.py:25-86 | Every answer and refusal of selection; the exclusion loop computes the specified relaxation. |
| MediaStream.RelaxExclusions | src/postcardscene/media_stream.py:69-74 | Exclusions are given up oldest first and no further than needed. |
| MediaStream.ShuffleAvailable | src/postcardscene/media_stream.py:52-86 | Something is always left to draw and the drawn offset is in range. |
| MediaStream.TailIsExcluded | src/postcardscene/media_stream.py:52-86 | A distinct tail of the recent items, shorter than the eligible list, survives relaxation. |
| MediaStream.DrawIsFresh | src/postcardscene/media_stream.py:52-86 | A shuffled draw extends the no-repeat property of the whole history. |
| MediaStream.RoundRobin | src/postcardscene/media_stream.py:52-86 | With at most 33 eligible items any `count` consecutive draws are all of them and each returns after exactly `count` draws. |
| StreamPlan.CandidateIsNext | src/postcardscene/display_planner.py:220-235 | A candidate is always a lawful next item: the cyclic successor, or not recently shown. |
| StreamPlan.PlanKeepsStream | src/postcardscene/display_planner.py:177-218 | Planning a step, alone or as a pair with a held-back candidate, appends exactly what it shows to the stream and remembers exactly that. |
| StreamPlan.PairKeepsStream | src/postcardscene/display_planner.py:196-218 | A rejected lookahead stays the stream's next item. |
| StreamPlan.RejectedComesNext | src/postcardscene/display_planner.py:177-218 | A candidate that does not pair with the first item is not lost: it starts the very next step, whatever is drawn then. |
| StreamPlan.HeldBackComesFirst | src/postcardscene/display_planner.py:177-195 | What was held back is shown first while it is eligible, and planning is as without it once it is not. |
| StreamPlan.FrameIsPair | src/postcardscene/image_selection.py:161-176 | Two items share a step if and only if the Widget is a pair Widget and its first item and the next draw are two different portraits. |
| StreamPlan.OrderedFrame | src/postcardscene/image_selection.py:161-176 | An ordered pair Widget groups neighbours of its list if and only if both are portraits. |
| StreamPlan.PortraitsPair | src/postcardscene/image_selection.py:161-176 | Where all of several eligible images are portraits a pair Widget always shows two, drawn or ordered. |
| StreamPlan.OrderedRunIsCyclic | src/postcardscene/display_planner.py:177-235 | Everything an ordered stream ever shows is the eligible list read cyclically, nothing skipped or doubled. |
| StreamPlan.ShuffledRunNeverRepeats | src/postcardscene/display_planner.py:177-235 | In a shuffled stream any min(count, 33) consecutive items are pairwise distinct. |
| StreamPlan.ShuffledRunIsRoundRobin | src/postcardscene/display_planner.py:177-235 | With at most 33 items the stream is a strict round robin. |
| StreamPlan.WidgetStream.Consume | src/postcardscene/display_planner.py:44-52 | The recency deque keeps the last 32. |
| StreamPlan.WidgetStream.Plan | src/postcardscene/display_planner.py:177-218 | The stream updated in place computes the planned stream and media; two media are two different portraits of a pair Widget. |
| PlannerModel.CyclePermutes | src/postcardscene/display_planner.py:142-152 | A new cycle is a permutation of the memberships, whatever the shuffle returns. |
| PlannerModel.OrderIsDrawn | src/postcardscene/display_planner.py:142-152 | A shuffled cycle is the order drawn, its first two exchanged only if it would repeat the last draw; otherwise the configured order. |
| PlannerModel.CycleStartsElsewhere | src/postcardscene/display_planner.py:142-152 | A shuffled cycle does not start where the last one ended. |
| PlannerModel.RequestKeepsBounded | src/postcardscene/display_planner.py:118-140 | Whatever the configuration does, -1 <= cursor < history <= 32, and a ready step is the one under the cursor. |
| PlannerModel.PreviousThenNext | src/postcardscene/display_planner.py:260-272 | An accepted previous is undone by the following next, streams and cycle included. |
| PlannerModel.PairReplays | src/postcardscene/display_planner.py:237-258 | A recorded pair replays if and only if both are still eligible portraits, and two different ones. |
| PlannerModel.StepReplays | src/postcardscene/display_planner.py:237-258 | Any other recorded step replays if and only if its occurrence, Widget and kind are as recorded and its media eligible. |
| PlannerModel.RefreshForgets | src/postcardscene/display_planner.py:93-99 | A changed epoch leaves no history, stream or cycle; an unchanged one leaves everything. |
| PlannerModel.ChangedUnderRequest | src/postcardscene/display_planner.py:118-140 | An epoch that changes while a request is under way is shown nothing of: next forgets everything, previous does so too unless nothing lies before the cursor. |
| PlannerModel.OtherKindStartsAfresh | src/postcardscene/display_planner.py:177-195 | A Widget whose kind has changed starts a new stream, as one never planned before does. |
| PlannerModel.BackAndForth | src/postcardscene/display_planner.py:118-152 | `k` accepted previous calls and `k` next calls return to the very same planner and show the same steps in reverse. |
| PlannerRun.RunHolds | src/postcardscene/display_planner.py:118-272 | The invariant of whole runs: history valid, every stream remembers what was planned, cycles intact. |
| PlannerRun.OrderedPlannerRun | src/postcardscene/display_planner.py:118-235 | Over any mix of next and previous and however Widgets interleave, what is planned for one Widget is its list read cyclically. |
| PlannerRun.ShuffledPlannerRun | src/postcardscene/display_planner.py:118-235 | The same runs never repeat an item within min(count, 33) of one Widget. |
| PlannerRun.CyclesOfRun | src/postcardscene/display_planner.py:142-152 | The members drawn fall into permutations of the memberships, and consecutive draws differ across cycles too. |
| PlannerRun.PreviousOfRun | src/postcardscene/display_planner.py:118-140 | Under one configuration previous is accepted exactly when there is an earlier step, and moves by one. |
| PlannerRun.NextOfRun | src/postcardscene/display_planner.py:118-140 | Under one configuration next replays the step behind the cursor; without one it draws a member, and shows and records a step of that member, with media of its own Widget, exactly when the member can be planned. |
| DisplayPlanner.Planning.DrawMember | src/postcardscene/display_planner.py:142-152 | The in-place draw is the specified one. |
| DisplayPlanner.Planning.Replay | src/postcardscene/display_planner.py:260-272 | The replay loop finds the nearest valid step in its direction. |
| DisplayPlanner.Planning.PlanMember | src/postcardscene/display_planner.py:177-218 | The in-place planning of one member changes only that Widget's stream, as specified. |
| DisplayPlanner.Planning.RequestStep | src/postcardscene/display_planner.py:118-140 | One request in place is the specified request, on which the run theorems stand. |
| PanelModel.StepKeepsLinear | src/postcardscene/runtime/panel.py:105-132 | Whatever clients do, inside the lock or behind it, every unresolved Future has exactly one debtor, a given result is final, and a Future a client holds gets the result it is held for. |
| PanelModel.LockKeepsOut | src/postcardscene/runtime/panel.py:105-163 | Who holds the lock keeps every other client out of it; the clock and the stop event need no lock. |
| PanelModel.JoinStops | src/postcardscene/runtime/panel.py:146-163 | Joining stops the coordinator without hiding how it ended; a worker that outlives the join has failed, the first failure kept. |
| PanelModel.SettleHand | src/postcardscene/runtime/panel.py:165-171 | Settling closes exactly one debt. |
| PanelModel.StoppedStaysSettled | src/postcardscene/runtime/panel.py:105-132 | After a stop with nothing pending, whatever is unresolved, then and later, is held by a client that has left the lock. |
| PanelModel.ClientsFinish | src/postcardscene/runtime/panel.py:125-132 | In whatever order those clients finish, each Future they hold gets its one result (superseded, stopped or rejected), and then every intent ever made has one. |
| PanelModel.DeliverKeepsLinear | src/postcardscene/runtime/panel.py:125-132 | A client behind the lock gives the Future it holds exactly that result and touches no other. |
| PanelModel.AppliedIntent | src/postcardscene/runtime/panel.py:105-132 | An intent is refused once stopped, and a test to light the panel while protection sleeps it; otherwise it is a new generation with its own pending Future, sets its own field alone, runs a test for five seconds, and takes the pending Future away to supersede it. |
| PanelWorker.PanelCoordinator.Intent | src/postcardscene/runtime/panel.py:105-124 | A client that finds nobody inside the lock does exactly that, and whatever is owed stays owed by one debtor. |
| PanelWorker.PanelCoordinator.FinishIntent | src/postcardscene/runtime/panel.py:125-132 | Behind the lock that Future gets the result it is held for, whoever ran meanwhile. |
| PanelWorker.PanelCoordinator.SleepingSignalIsIntentional | src/postcardscene/runtime/panel.py:82-91 | While the signal backend sleeps the gate for output reconciliation stays closed. |
| PanelModel.GateFollowsPolicy | src/postcardscene/runtime/panel.py:82-92 | The gate for output reconciliation is closed exactly while the signal backend is active and policy wants the panel off or the signal's sleep is owned. |
| PanelWorker.PanelCoordinator.Publish | src/postcardscene/runtime/panel.py:98-103 | A publication takes effect only for the generation it speaks for and never after a failure. |
| PanelWorker.PanelCoordinator.SettlePass | src/postcardscene/runtime/panel.py:165-171 | A pass settles only the Future of its own generation, READY only when the newest answer of a backend, given in this very pass, matches the target. |
| PanelWorker.PanelCoordinator.ExpireTest | src/postcardscene/runtime/panel.py:173-182 | A test expired when the lock is taken ends without diagnostic, deadline or pending Future under a new generation, its Future superseded; one that has not expired is left alone, only clients act. |
| PanelWorker.PanelCoordinator.Send | src/postcardscene/runtime/panel.py:204-210 | A backend is put to sleep only while it is the selected one under an issued command; what it answers is recorded with the generation it was asked for. |
| PanelWorker.PanelCoordinator.Call | src/postcardscene/runtime/panel.py:204-210 | What a call brings is a cancellation, without anything sent, or the newest answer of this pass; a pass already overtaken sends nothing; only a matching readback wakes a sleeping backend; and the worker fails here exactly for a backend that could not clean up. |
| PanelWorker.PanelCoordinator.Select | src/postcardscene/runtime/panel.py:219-235 | Selection probes only while nothing sleeps elsewhere, so a sleeping panel is never handed over. It probes the candidates in order, all but the last plainly absent, and ends without an owner only if the pass is overtaken or every candidate is absent. |
| PanelWorker.PanelCoordinator.Consult | src/postcardscene/runtime/panel.py:237-283 | A settings edit cannot move authority away from a sleeping backend. The owner is kept while a wake is pending, after a command unless it is wanted active and read on, and while the choice is the same unless it has plainly fallen away; otherwise another one is sought. |
| PanelWorker.PanelCoordinator.Command | src/postcardscene/runtime/panel.py:255-283 | The command path keeps single authority whatever the backend answers; a usable owner that does not match is commanded towards the target, unless the pass is overtaken first, and any other is left alone. |
| PanelWorker.PanelCoordinator.Readiness | src/postcardscene/runtime/panel.py:285-311 | READY needs a matching readback and, after a wake, the settling delay; the verdict is what is shown, and a signal read as on is no longer owned asleep. |
| PanelWorker.PanelCoordinator.Reconcile | src/postcardscene/runtime/panel.py:237-283 | A backend that was sent off and not read back on is the currently selected one, across every outcome; the result judged is the newest answer of this pass, or a cancellation once overtaken, and is what is shown; unless overtaken the verdict is whether that answer matches, and a usable owner that does not was last commanded towards the target. |
| PanelWorker.PanelCoordinator.Judge | src/postcardscene/runtime/panel.py:324-339 | A pass that comes to a verdict in time gives exactly that verdict to the Future pending in its generation; past its deadline that Future is degraded; overtaken otherwise, nothing is settled. |
| PanelWorker.PanelCoordinator.Tick | src/postcardscene/runtime/panel.py:313-339 | One pass keeps linearity and authority. Nothing is commanded against policy, over the fields: protection sleeps the panel, otherwise a running test decides, otherwise the schedule. Every Future it makes READY rests on the newest backend answer, given in this pass, for its generation, that reads the panel where policy wants it. Conversely a pass that is not overtaken has asked a backend and shows whether its last answer reads the panel there; a usable owner that does not was last commanded; and the pending intent has exactly that result, or waits for a wake to settle. An expired test is ended first; unreadable settings degrade. |
| PanelWorker.TargetIsPolicy | src/postcardscene/runtime/panel.py:184-193 | What is commanded and accepted towards the target is what policy wants, over the status fields. |
| PanelWorker.PanelCoordinator.Run | src/postcardscene/runtime/panel.py:349-372 | However the worker ends, nothing is pending or in its hand: whatever is unresolved is held by a client that has left the lock, and every result given is final. Unless it ended every round was a pass. |
| PanelWorker.PanelCoordinator.Finish | src/postcardscene/runtime/panel.py:368-372 | At the end stopped is shown unless something failed, and the last pending Future is stopped, or told that cleanup failed. |
| PresentationTrace.ShowsAreSeparated | src/postcardscene/runtime/playback_state.py:102-184 | A successful clear lies between any two shows. |
| PresentationTrace.OnlyStopAfterFailedClear | src/postcardscene/runtime/playback.py:132-159 | Nothing but stop follows a failed clear, and at once. |
| PresentationTrace.StopIsLast | src/postcardscene/runtime/playback.py:132-159 | Stop is the last call. |
| PlaybackState.Machine.AccountTime | src/postcardscene/runtime/playback_state.py:95-100 | Only content that is neither paused nor suppressed uses up its dwell, and never more than really passed. |
| PlaybackState.Machine.ClearScreen | src/postcardscene/runtime/playback_state.py:102-109 | Content is dropped only once black is confirmed; otherwise cleanup has failed. |
| PlaybackState.Machine.Failed | src/postcardscene/runtime/playback_state.py:121-135 | A contained failure ends at rest on a blank screen and only a failed clear is fatal; eight in a row back off for five seconds; cancellation keeps the current step and counts nothing. |
| PlaybackState.Machine.Present | src/postcardscene/runtime/playback_state.py:159-184 | The current step is revalidated once, and shown only if valid; success means nothing told the operation to give up, content is held, lit, and starts a fresh dwell; failure never leaves more than one show behind. |
| PlaybackState.Machine.Advance | src/postcardscene/runtime/playback_state.py:137-157 | The planner is asked once, in the direction wanted; its boundary changes nothing, nothing planned leaves a blank screen, and the previous content is cleared before the step it gives becomes current and is shown, unless output is suppressed or the operation is told to give up. |
| PlaybackState.Machine.Due | src/postcardscene/runtime/playback_state.py:226-231 | Held content is due only after running for its whole dwell or when a video ended, and is not passed over then. |
| PlaybackState.Machine.TickOp | src/postcardscene/runtime/playback_state.py:214-239 | Suppressed output makes no call. With nothing held and no backoff the planner is asked for the next step, exactly once, or the current step is revalidated and held on a normal end. Held content leaves the screen only at a moment at which it had run for its whole dwell, or as a video that had ended, and then next is asked for; no wait is unbounded while a dwell or a video runs. |
| PlaybackState.Machine.AdvancePast | src/postcardscene/runtime/playback_state.py:226-231 | Held content is advanced past only when not paused and its dwell has run, or as a video that ended. |
| PlaybackState.Machine.Poll | src/postcardscene/runtime/playback_state.py:226-230 | A video is asked for a snapshot exactly when its poll is due, time is accounted and the next poll set. |
| PlaybackState.Machine.SetPaused | src/postcardscene/runtime/playback_state.py:253-267 | Pausing touches the presenter only for video content, and then always; the time until now is accounted for. |
| PlaybackState.Machine.SetSuppressedTo | src/postcardscene/runtime/playback_state.py:245-252 | Content is retired before either value takes effect, and a failed retirement changes nothing. |
| PlaybackState.Machine.VideoCommand | src/postcardscene/runtime/playback_state.py:270-292 | Only content able to obey is asked, and it is; what the presenter finds unavailable is an answer, not a failure, and a proper snapshot is accepted. |
| PlaybackState.Machine.CommandOp | src/postcardscene/runtime/playback_state.py:241-268 | What each command does to pause, suppression, content and the call trace: next and previous ask the planner once, each in its own direction, and do what it answers; pausing reaches the presenter exactly for a video whose pause changes; seek and audio exactly for content able to obey; suppression retires content exactly if it changes. |
| PlaybackState.Machine.ExecuteCommand | src/postcardscene/runtime/playback_state.py:294-303 | Every command executed is recorded with what came of it; pause and suppression end as the command says. One that raised nothing did exactly what its command says; where nothing fails none raises, but for a planner that gives nothing. Known failures are contained and leave the machine at rest: what is held is what is lit, held content has a current step and output is not suppressed; only failed cleanup and bugs escape, and then only stop is still allowed. |
| PlaybackState.Machine.ExecuteTick | src/postcardscene/runtime/playback_state.py:294-303 | The same containment for a tick, which never changes suppression and executes no command: unless something was contained it started what it was to start, kept or left held content as its dwell or its end says, and waits for what is left; where nothing fails, a blank screen that is to show something does. |
| MailboxModel.StepKeepsValid | src/postcardscene/runtime/playback.py:79-130 | Whatever clients do, the queue stays within 32 and in order, every unsettled Future has a debtor, and the token is exact. |
| MailboxModel.CancellationExact | src/postcardscene/runtime/playback.py:170-171 | An operation sees cancellation exactly when stop is set or a transport command was accepted after its token was installed. |
| MailboxModel.WithdrawnBeforeBegun | src/postcardscene/runtime/playback.py:173-176 | A Future is withdrawn only before its command begins, and nothing else changes. |
| MailboxModel.ShutdownIsSeen | src/postcardscene/runtime/playback.py:107-130 | A requested shutdown is seen by every operation; a failure stops, closes and cancels, and the first reason is kept. |
| MailboxModel.TakeKeepsValid | src/postcardscene/runtime/playback.py:163-168 | Popping and installing the token under one lock: no command cancels itself and no intent is erased. |
| MailboxModel.NothingOvertakes | src/postcardscene/runtime/playback.py:161-185 | Commands begin in the order they were accepted. |
| MailboxModel.TakenIsAnswered | src/postcardscene/runtime/playback.py:173-185 | Between operations whatever was taken is answered or had been withdrawn. |
| MailboxModel.ExecutedInOrder | src/postcardscene/runtime/playback.py:161-185 | First in, first executed: of the commands taken exactly those not withdrawn were executed, each at the place its predecessors leave it, and its Future has what its own execution came to. |
| MailboxModel.PerformedStays | src/postcardscene/runtime/playback.py:161-185 | No later step of anybody changes what was executed and answered. |
| MailboxModel.ClosedStaysAnswered | src/postcardscene/runtime/playback.py:149-155 | After closing, no client can leave a Future unanswered. |
| PlaybackWorker.Worker.SubmitCommand | src/postcardscene/runtime/playback.py:79-102 | Exactly when a submission is rejected, busy or accepted, and that an accepted command cancels the running operation unless it seeks or sets audio. |
| PlaybackWorker.Worker.ExecuteTaken | src/postcardscene/runtime/playback.py:173-185 | A withdrawn command is not executed and makes no presenter call; any other is executed by the machine once, behind all taken before it, and its Future gets what the machine returned, or that cleanup failed. |
| PlaybackWorker.Worker.Turn | src/postcardscene/runtime/playback.py:161-191 | One turn takes the head of the queue, if any, under a token installed after everything accepted before, and otherwise ticks exactly once; what the machine has executed are the commands taken, in order, without the withdrawn ones. |
| PlaybackWorker.Worker.RejectRest | src/postcardscene/runtime/playback.py:149-155 | What is still queued is rejected unless its client withdrew it. |
| PlaybackWorker.Worker.LoopAndRetire | src/postcardscene/runtime/playback.py:132-148 | The presenter is stopped once however the loop ends; what escapes the loop, or a stop that raises, is the failure recorded, failed cleanup told apart from anything else, and nothing else but a join that gives up is one. |
| PlaybackWorker.Worker.Run | src/postcardscene/runtime/playback.py:132-159 | However it ends: one stop as the last presenter call of a lawful trace; the commands taken by the loop were executed in order and answered with what came of them, unless withdrawn; all later ones were rejected or withdrawn; no Future is left open. Where nothing fails and nobody stops it, every one of its rounds took a command or ticked. |
| RestoreModel.CapturableIsRemovable | src/postcardscene/backup/restore_files.py:116-160 | A captured file set can be rolled back from where it stands. |
| RestoreModel.CapturableIsInstalled | src/postcardscene/backup/restore_files.py:116-160 | Over owner, group and mode: a restore starts from exactly the installed files, with sidecars of the services alone. |
| RestoreModel.PutKeepsRemovable | src/postcardscene/backup/restore_files.py:207-215 | Neither replaced targets nor sidecars made by validation get in the way of rollback. |
| RestoreRun.Restore.ReplaceFile | src/postcardscene/backup/restore_files.py:163-204 | A target changes at once or not at all, and only to the expected bytes under its metadata. |
| RestoreRun.Restore.RemoveSidecars | src/postcardscene/backup/restore_files.py:207-215 | Success leaves no sidecar, and with a capture only captured ones went; without faults rollback's removal succeeds if and only if owners and metadata allow it. |
| RestoreRun.Restore.CaptureCurrent | src/postcardscene/backup/restore_files.py:138-160 | A completed capture records and saves exactly the files there are, absent ones included. |
| RestoreRun.Restore.InstallMembers | src/postcardscene/backup/restore_execute.py:105-117 | Success leaves exactly the archive's members under their metadata and no sidecar. |
| RestoreRun.Restore.ValidateData | src/postcardscene/backup/restore_execute.py:51-82 | Validation changes the database's content at most, and whatever sidecars it leaves can be removed. |
| RestoreRun.Restore.Replace | src/postcardscene/backup/restore_execute.py:96-119 | It succeeds if and only if it committed, and does so without a fault over readable files; before that, once anything changed, an exact rollback is possible from every point. |
| RestoreRun.Restore.Rollback | src/postcardscene/backup/restore_files.py:218-235 | The rollback directory stays exact whatever happens; success means the captured files; without faults success if and only if the sidecars found are removable. |
| RestoreRun.Restore.Fail | src/postcardscene/backup/restore_execute.py:121-145 | Behind masked signals: which outcome is reported when, that nothing is written after commit, that the directory is preserved exactly for manual recovery after changes; and that without a fault a failure before commit is rolled back to the captured files. |
| RestoreRun.Restore.HandleFailure | src/postcardscene/backup/restore_execute.py:167-178 | A failure stays unhandled, with files, services and rollback directory as they were, if and only if a signal interrupts the handler it falls to before signals are masked; otherwise, and without a fault, it is settled as its stage says. |
| RestoreRun.Restore.Execute | src/postcardscene/backup/restore_execute.py:148-185 | Once files changed and nothing was committed, the files are rolled back exactly or the directory is preserved intact if and only if no handler was interrupted before masking signals, and rolled back whenever the handling meets no fault; a run without a fault over readable files completes; and what every outcome says about files, services and directory. |
| RestoreRun.LosingRun | src/postcardscene/backup/restore_execute.py:167-185 | For any installed files and any archive with another configuration there is a run that ends half replaced with no copy left. |
| RestoreRun.Restore.Recover | src/postcardscene/backup/restore_files.py:218-235 | After a failed rollback, repeating it without a fault always ends with the captured files. |
| LimiterModel.PruneKeeps | src/postcardscene/web/login_limiter.py:23-27 | Expiry drops only the old end of what is kept, never a failure younger than the window. |
| LimiterModel.SixthIsLater | src/postcardscene/web/login_limiter.py:23-79 | In a spaced record every sixth failure is at least 300 s after the first of the six. |
| LimiterModel.RecordKeepsSpaced | src/postcardscene/web/login_limiter.py:70-79 | Recording a failure under a reservation keeps the record spaced, whatever else is in flight. |
| LimiterModel.RetryIsExact | src/postcardscene/web/login_limiter.py:29-36 | Waiting the seconds returned suffices, and a second less does not. |
| LoginLimiter.AddKeepsReserved | src/postcardscene/web/login_limiter.py:52-68 | A new reservation is counted on the window its holder finds. |
| LoginLimiter.SubtractKeepsReserved | src/postcardscene/web/login_limiter.py:70-79 | A finished attempt finds the very window it reserved. |
| LoginLimiter.Limiter.Prune | src/postcardscene/web/login_limiter.py:23-27 | Every address is pruned, idle windows go, and the order of use stays. |
| LoginLimiter.Limiter.FindVictim | src/postcardscene/web/login_limiter.py:54-61 | The victim is the least recently used window without an attempt in flight, none only if every window has one. |
| LoginLimiter.Limiter.Begin | src/postcardscene/web/login_limiter.py:44-68 | Admission and both refusals exactly; failures and pending stay within 5, windows within 256; a victim has no attempt in flight, and everything used less recently has one or nothing left to count. |
| LoginLimiter.Limiter.Finish | src/postcardscene/web/login_limiter.py:70-79 | The reserved window is still there; the record of failures grows, clears or stays as the outcome says, stays spaced, and becomes the most recently used. |
| LoginLimiter.Limiter.RetryAfter | src/postcardscene/web/login_limiter.py:38-42 | Answers what admission would. |

## Findings

- src/postcardscene/backup/restore_execute.py:171-172: a SIGINT or SIGTERM delivered after `failure_handled = True` and before `recovery_signals` has masked signals (lines 40-43) escapes `fail`. The outer handler then skips `fail`, `preserve` is still false and the `finally` deletes the rollback directory: the targets stay half replaced with no copy left. `RestoreRun.LosingRun` is such a run. `RestoreRun.Restore.Execute` proves the exact condition: after changes and before commit the files are rolled back or the directory is preserved if and only if not `RestoreModel.Escapes`, that is, no handled signal arrives between the entry of the handler that is to call `fail` (the outer one at line 175 if the inner one is interrupted before it marks the failure) and the masking.
- install_update_transaction.py:24-44: an interrupt between two of the protected actions leaves later units unattempted, although every unit is to be retired even after a failure. `UpdateRun.CutShortRun` is such a run, with the web server left running. `UpdateRun.RetirementIsWhole` with `UpdateRun.Updater.Quiesce` is the exact condition; the phase file still says `committed`, and a rerun finishes (`UpdateRun.Updater.HistoryThenRerun`).
- install_update_finish.py:183-200: when the phase file is already gone and cannot be read or written back, the units of a finished installation are retired all the same, and no rerun can bring them up (`UpdateModel.FinishedIsRefused`). `UpdateRun.StrandedRun` is such a run, from any converged and running disk. The exact condition is `UpdateRun.Updater.DownIsOnRecord`, which `UpdateRun.Updater.HistoryThenRerun` carries over any history: on a finished disk a unit is down if and only if an action of that handler took effect after restoring the phase file failed (and, for a unit only stopped, no boot started it again).
- install_update_finish.py:56-68: after commit recognition accepts a switched link over an old asset while the old release is intact (`UpdateModel.RecognitionIsNotEnough`); `UpdateModel.RecognizedIsAfterCommit` says exactly which accepted disks an update can have left.

## Left out

- UpdateRun.Updater.Execute: invocations are serial; a competitor that stages or commits between another's staging and its lock is not modelled, so the re-read of the phase file under the lock always finds what was staged for.
- UpdateRun.Updater.Stage: each member of the staged payload appears whole; half-written members, and half-written asset siblings, are not modelled and no convergence is claimed from them.
- UpdateRun.Updater.OperatorRestore: a restore after `committed` is durable is outside the model.
- Updates to a third version while a phase file names another target: recognition refuses them by identity, only reruns of the same target are run.
- The backup destination option, the package-version parser, the doctor report and the preflight plan are steps that succeed or fail.
- SchemaChain.ReadRevisions: parsing a migration file into literal assignments is not modelled; a value is absent, none, a text or something else.
- CatalogModel.RunKeepsConsistent: row identities are a counter that never goes back, where SQLite may reuse the largest deleted one; deleting a Source and reusing its id while an old attempt runs is not modelled.
- CatalogWorker.CatalogDatabase.Observe: a path that has no UTF-8 encoding, whose check raises, counts among the unexpected errors of an attempt.
- CatalogWorker.Reconcile: an unexpected error may end an attempt anywhere and is then reported as a crash; enumeration is a fixed sequence that may be cut short.
- StreamPlan.OrderedRunIsCyclic: the eligible list is fixed; catalog changes between draws are not part of the stream theorems.
- MediaStream.ShuffleAvailable: the random fraction is a real number, float rounding at the upper end is not modelled; the shuffle is any order, and one that is no permutation counts as the unshuffled order.
- PlannerModel.RequestKeepsBounded: storage errors raised in the middle of a request are not modelled, and all configuration reads of one request after its first are the same snapshot.
- PanelWorker.PanelCoordinator.Run: whatever raises does so between two passes; a raise in the middle of one, or of a Future's callback while it is given its result, is not among the ways the worker ends.
- The panel's reason texts and display-only settings fields, and the texts and fields of playback status publications, are not modelled.
- PlaybackState.Machine.CommandOp: whether a given step is playable, what the planner answers and what a presenter snapshot says beyond active, ended, seekable and audio are chosen freely; command argument ranges are reduced to valid or not.
- PlaybackWorker.Worker.Turn: how long the worker waits is not modelled; an operation may behave as cancelled or not at every point it asks, and what it would see is stated on the mailbox.
- RestoreRun.Restore.ReplaceFile: staging beside the target and the move onto it are one atomic step; sizes and limits, directory checks and link counts are not modelled, and modification times and attributes are one value.
- RestoreRun.Restore.HandleFailure: of a signal only the interval it is delivered in matters; the lock that is released before the outer handler runs, and a signal that arrives while only one of the two is masked, are not told apart from one before masking.
- RestoreRun.Restore.Prepare: nobody but the stopped services writes the files during a restore.
- LoginLimiter.Limiter.Finish: a window is a value with a serial number for its identity instead of a shared object, and times are real numbers.
- LoginLimiter.Limiter.Begin: the record of failures is kept for one arbitrary address per run; being arbitrary, it stands for every address.
- Ownership and mode checks of the installer, tree walks, hashing, tar and wheel parsing, web forms, cookies, power-tool text parsing and all other operating system and library calls are atomic steps with a free outcome or are absent.
