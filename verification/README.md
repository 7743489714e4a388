# Verified model of the Qubes OS update tools

This project models the part of the Qubes OS dom0 Linux tools that updates qubes and dom0, and proves
properties of the model with Dafny 4.11. `dafny verify dfyconfig.toml` checks everything.

The modules follow the program:

- `ExitCodes`: the exit codes and final statuses all parts share.
- `Worker`: `update_qube` and the qube connection it opens, as classes and methods with their exception
  paths, proved against one function, `Trace`, that gives every message a worker puts on the queue, its
  code, and whether it started the entrypoint. Exit codes, exceptions and the two reads of the
  termination flag are inputs.
- `WorkerFacts`: what that function means, told from which command ended how and which step raised.
- `Feeder`: the consumer of the queue, with bars and statuses as mutable objects.
- `Protocol`, `BatchRun`, `Cancellation`, `MissingStatus`, `QuietBatch`: a batch as a step system (pool
  slots, worker positions, FIFO queue, termination flag, callbacks, feeder). Any interleaving of the steps
  is a run; the theorems are about every run.
- `FineRuns`, `Executions`, `ApplyPhase`, `WholeRun`: what a batch's code says about every qube, the
  executions a batch has, the shutting down and restarting of qubes whose template was updated, and `main`
  on any executions of its three batches.
- `Progress`, `Counters`, `Display`, `FinalBars`: percentages from the download callbacks to the bars in dom0.
- `ProcessResult`, `PackageDiff`, `Pipeline`: the agent inside a qube.
- `XenCfg`, `XenCfgHistory`, `XenCfgRuns`, `XenCfgLog`, `XenCfgSamples`: the editing of `xen.cfg` when a
  kernel is installed or removed, once and over whole histories.
- `UkiLayout`: the placement of sections in a unified kernel image.
- `ReceiveUpdates`: the verification of packages received for dom0.

Numbers are unbounded integers and exact reals. Exit codes may be negative, as Python's are for a process
killed by a signal.

## Where the code departs from what one would expect

Each point is a theorem; the exact condition is in the lemma named.

- A transfer, an entrypoint or the leaving of the connection that raises makes the worker put a second
  DONE (`Worker.DoneAccounting`). In a batch with at least two qubes this, and nothing else, can end the
  feeder loop before some qube has reported (`MissingStatus.MissingStatusIff`). The code of the batch is right
  all the same (`FineRuns.CodeTheorem`), but a run that is to apply updates then looks up a status that is
  not there and raises (`WholeRun.CanCrashIff`, `WholeRun.RaisingCopyCrashes`).
- The codes 1 and 40 for statuses ERROR and UNKNOWN never surface: no worker sends UNKNOWN, and ERROR only
  along with a larger code (`Executions.ExecutionCode`).
- Merging by maximum drops negative codes: an entrypoint killed by a signal is reported as SUCCESS
  (`Worker.SuccessMeans`, `Worker.KilledEntrypointSucceeds`).
- 100 is larger than the agent's error codes. Under `--force-upgrade` a failed refresh is reported as
  "no updates" exactly if the backend says so (`Pipeline.ForcedFailureMasked`,
  `Pipeline.FailedRefreshMasked`), and a failed clean-up never
  shows next to "no updates" (`Pipeline.Entrypoint`).
- Without bars no statuses are collected. `--signal-no-updates` then reports "no updates" for every good
  run (`WholeRun.QuietRunReportsNoUpdates`), and a run that is to apply updates raises, as it does with
  `--display-name`, under which the status is kept instead of the qube's own name (`WholeRun.CanCrashIff`).
- A phase boundary that rounds up to the next hundredth is reported twice; the stream of reports is
  strictly increasing for all inputs exactly if no inner boundary does (`Progress.StrictIff`; `Progress.EqualWeightsRepeat` for
  weights that reach one).
- The dnf byte counter is wrong after a second `start` unless nothing had been counted
  (`Counters.DnfStartExact`, `Counters.SecondStartBreaks`); the dnf5 counter drifts by exactly the amount
  a download goes back (`Counters.Dnf5Drift`, `Counters.Dnf5RunDrift`), and bytes on an announced total of
  0 raise (`Counters.Dnf5FetchProgress.Progress`).
- A blank line on the agent's standard error before 100 makes the reader thread raise
  (`Display.ReaderRaisesIff`,
  `Display.BlankLineRaises`), and so can lose the status of a qube (`FinalBars.BlankLineLosesStatus`).
- If `xen.cfg` does not end with a newline, the header of the new section is glued to the last line. Then
  `default=` names a section that does not exist (`XenCfgRuns.AddedDefaultIs`) and stays so
  (`XenCfgLog.LostStaysLost`), the section the file ends in absorbs the new kernel's lines
  (`XenCfgHistory.AddedBodiesIff`), and removing does not undo installing
  (`XenCfgHistory.RemoveUndoesAddIff`). `XenCfgSamples.UnterminatedGoesWrong` shows all three on an ordinary
  file. If, besides, the last line is a `default=` line and a section `[]` comes before any default is read,
  installing twice adds a second copy (`XenCfgRuns.AddTwiceIff`, `XenCfgSamples.UnnamedAddsTwice`).
- A `default=` line after a comment that mentions `[global]` is read in any section, and lost when that section
  is removed (`XenCfgSamples.RemovalLosesDefault`, `XenCfgRuns.RemovedResolves`).
- The first added section of a unified kernel image starts above every start and every size of the
  hypervisor's sections, not above every end; they can overlap (`UkiLayout.ClearIffBaseIsHighEnough`,
  `UkiLayout.LargeSectionIsOverlapped`).

## Model

| member | source | states |
|---|---|---|
| Worker.UpdateQube | vmupdate/update_manager.py:382-409 | the messages put, the code and whether the entrypoint started are those of `Trace`, on every path including both exception paths |
| Worker.QubeConnection.Body | vmupdate/update_manager.py:509-517 | what the `with` block sends, returns and leaves as status, by transfer, second flag read and entrypoint |
| Worker.QubeConnection.RunEntrypoint | vmupdate/update_manager.py:536-550 | SUCCESS only after a run whose merged code is 0 and which did not say "no updates" |
| Worker.QubeConnection.TransferAgent | vmupdate/qube_connection.py:132-185 | raises exactly if archiving or copying does, otherwise the code of the first failing command; 100 from a command is captured as a status |
| Worker.QubeConnection.RunAndWait | vmupdate/qube_connection.py:230-268 | 100 becomes status NO_UPDATES and code 0, a foreign exception becomes 1, 100 never comes out |
| Worker.QubeConnection.RunAndReport | vmupdate/qube_connection.py:270-308 | all reader messages precede the result; 100 is captured; a fault is raised |
| Worker.QubeConnection.Leave | vmupdate/qube_connection.py:81-122 | DONE is put first, with the status at that moment, whether or not the rest raises |
| Worker.DoneAccounting | vmupdate/update_manager.py:387-409 | every path ends in one DONE, or in two exactly if the broad handler is reached after the connection was left; nothing but DONEs follows a DONE |
| Worker.NamesAgree | vmupdate/update_manager.py:462-465 | all messages of a qube carry its bar's name, exactly unless an AdminVM of another name is updated by its agent |
| Worker.SuccessMeans | vmupdate/update_manager.py:547-549 | SUCCESS is sent exactly if the entrypoint ran, did not raise, its code was not positive, and no command said "no updates" |
| Worker.KilledEntrypointSucceeds | vmupdate/agent/source/common/process_result.py:108 | a negative code ends as SUCCESS and 0 |
| Worker.CancelledMeans | vmupdate/update_manager.py:387-389 | CANCELLED is sent exactly if one of the two flag reads was true, and then the entrypoint never started |
| Worker.NoUpdatesCodeIsCaptured | vmupdate/qube_connection.py:256-258 | no worker returns 100 or a negative code |
| WorkerFacts.CancelledAtOnce | vmupdate/update_manager.py:387-389 | a first look that sees SIGINT: one DONE with CANCELLED, code 130, no launch |
| WorkerFacts.CancelledLate | vmupdate/update_manager.py:511-513 | the same for the second look, if nothing raises |
| WorkerFacts.SetupFails | vmupdate/update_manager.py:391-408 | set-up that raises: one DONE with ERROR and code 26 |
| WorkerFacts.HandlerMeans | vmupdate/update_manager.py:404-408 | anything that raises later: the last message is a DONE with ERROR after the connection's own DONE, and the code is 26 |
| WorkerFacts.LaunchedIff | vmupdate/update_manager.py:501-515 | the entrypoint is started exactly if nothing raised before and neither look saw SIGINT |
| WorkerFacts.MessagesMean | vmupdate/qube_connection.py:294-308 | before the DONEs come exactly the reader threads' reports |
| WorkerFacts.NoUpdatesIff | vmupdate/qube_connection.py:255-258 | NO_UPDATES is sent exactly if a command that was run ended with 100 and no later look replaced it |
| WorkerFacts.ErrorIff | vmupdate/qube_connection.py:72 | ERROR is sent exactly if something raised, or the entrypoint failed and no command said "no updates" |
| WorkerFacts.ReturnedCode | vmupdate/update_manager.py:509-519 | otherwise the code is the larger of that of the first failing transfer command and that of the entrypoint |
| Feeder.SimpleTerminalBar.Update | vmupdate/update_manager.py:232-237 | the shown value grows by the increment, also after a reset |
| Feeder.SimpleTerminalBar.Reset | vmupdate/update_manager.py:225-230 | the bar shows nothing until the next update |
| Feeder.ProgressBars.AddBar | vmupdate/update_manager.py:289-301 | a new bar at 0, other bars untouched; a dummy adds nothing |
| Feeder.ProgressBars.ResetBar | vmupdate/update_manager.py:116-119 | the AdminVM's bar is hidden and counts from 0; raises exactly if no bar has the qube's own name |
| Feeder.ProgressBars.Update | vmupdate/update_manager.py:338-342 | the bar gets the difference to its last value; all other bars are untouched |
| Feeder.ProgressBars.Consume | vmupdate/update_manager.py:313-336 | one message changes statuses, bars and the count as specified; raises exactly for a status or percentage without a bar, and what has changed by then |
| Feeder.ProgressBars.Feeding | vmupdate/update_manager.py:303-336 | the loop takes exactly the shortest prefix of the stream that holds one DONE per bar; a dummy takes nothing |
| Feeder.FeedShows | vmupdate/update_manager.py:321-342 | after any interleaving a bar's increments add up to its own qube's last report, and its status is its own qube's last one |
| Feeder.FeedLeft | vmupdate/update_manager.py:313-323 | the loop's counter is the number of bars minus the DONEs consumed |
| Protocol.PlanIsValid | vmupdate/update_manager.py:362-409 | every worker's behaviour is one the step system covers |
| Protocol.StepInv | vmupdate/update_manager.py:96-125 | every step of the pool, a worker, the callback, the feeder or SIGINT keeps the batch invariant |
| Protocol.RunInv | vmupdate/update_manager.py:96-125 | hence every interleaving does: queue and workers agree, feeder state follows from consumed messages, slots are not exceeded, the code is the maximum of collected results |
| BatchRun.SinglePlanOf | vmupdate/update_manager.py:404-408 | a worker has a single DONE whatever it reads from the flag, exactly if the broad handler never follows the leaving of the connection |
| BatchRun.FeederExit | vmupdate/update_manager.py:312-336 | when the loop ends, one DONE per qube has been consumed, the queue is empty for good, and every bar has its own qube's status |
| BatchRun.CombineResult | vmupdate/update_manager.py:127-138 | the code is the least one at or above the collected maximum, or 130 after SIGINT, and 130, 40 and 1 for CANCELLED, UNKNOWN and ERROR |
| BatchRun.WorstSplits | vmupdate/update_manager.py:132-157 | folding codes by callback and then statuses equals the worst any single qube asks for |
| BatchRun.RunResult | vmupdate/update_manager.py:121-143 | the pair returned depends only on what each qube did and on the final flag |
| BatchRun.Confluence | vmupdate/update_manager.py:121-157 | two finished runs in which every qube did the same return the same code and statuses, whatever the interleaving |
| BatchRun.UninterruptedConfluence | vmupdate/update_manager.py:121-157 | all finished runs of a batch that was not interrupted return the same pair |
| Cancellation.LaunchesAfterInterrupt | vmupdate/update_manager.py:344-347 | the flag stays set, and the entrypoints started afterwards are exactly workers already past the second check |
| Cancellation.PromptCancellation | vmupdate/update_manager.py:511-515 | after SIGINT at most `max_concurrency` entrypoints start |
| Cancellation.InterruptedRun | vmupdate/update_manager.py:127-129 | wherever SIGINT falls into a run, at most `max_concurrency` entrypoints start after it and the code is 130 |
| Cancellation.InterruptedOutcome | vmupdate/update_manager.py:387-389 | after SIGINT a worker that has not begun, or is still transferring, has the outcome of a set flag |
| Executions.InterruptedQube | vmupdate/update_manager.py:387-389 | at the end of an interrupted batch a qube that had not begun has said CANCELLED and nothing else, with 130, and one still being sent the agent has not run it |
| Cancellation.LaunchedMeansFull | vmupdate/update_manager.py:511-519 | a worker that started its entrypoint has the outcome of a full run |
| Cancellation.CancelledNeverRan | vmupdate/update_manager.py:387-389 | in every run, a qube shown as CANCELLED never started its entrypoint |
| Cancellation.StepDecreases | vmupdate/update_manager.py:303-336 | every step but SIGINT lowers a measure |
| Cancellation.RunsAreBounded | vmupdate/update_manager.py:96-125 | so no run goes on for ever, and its length is bounded by its start |
| Cancellation.NeverStuck | vmupdate/update_manager.py:121-123 | no reachable state is a deadlock: until feeder and pool are through, some step can be taken |
| Cancellation.WorkersNeverStuck | vmupdate/update_manager.py:107-123 | pool and workers never wait for the feeder |
| Cancellation.DrainedMeansDone | vmupdate/update_manager.py:312-336 | workers returned and queue drained imply that the loop ends |
| MissingStatus.MissingStatusIff | vmupdate/update_manager.py:404-408 | some run ends the loop with a status missing if and only if there are two qubes or more and one of them can double its DONE |
| MissingStatus.SecondDoneMisses | vmupdate/update_manager.py:312-323 | such a run is built step by step |
| MissingStatus.OneBarIsComplete | vmupdate/update_manager.py:312-323 | a single qube's status is never missed |
| MissingStatus.SameResult | vmupdate/update_manager.py:96-143 | any two uninterrupted runs of a batch without a second DONE, each gone on as long as possible, return the same code and statuses |
| MissingStatus.BatchTheorem | vmupdate/update_manager.py:96-143 | without a second DONE, every run that cannot go on has ended properly, with all statuses, an empty queue, and the code of the worst qube or 130 |
| FineRuns.CodeTheorem | vmupdate/update_manager.py:121-157 | the code of every batch run that cannot go on, also if statuses are missing: 130 after SIGINT, otherwise the largest mapped result, which is the worst any qube asks for; statuses never change it |
| FineRuns.BatchCodeMeans | vmupdate/update_manager.py:145-157 | told from what the workers returned: 130 after SIGINT, else 26 exactly if some code is not 0 or 21 to 25, else the largest code |
| FineRuns.SameCode | vmupdate/update_manager.py:121-157 | any two uninterrupted ones return the same code, whatever statuses are missing |
| FineRuns.ErrorMeans | vmupdate/update_manager.py:382-409 | without SIGINT a worker sends ERROR only along with an error code, and never CANCELLED or UNKNOWN |
| WholeRun.VmUpdate | vmupdate/vmupdate.py:57-140 | a 130 of any batch exits with 130, before the next batch is begun and before anything is applied; otherwise the run raises with the apply phase or exits with the largest of the four codes, and with 0 or 100 if all are 0; batches may be any executions, also ones that lack statuses |
| QuietBatch.QuietResult | vmupdate/update_manager.py:121-143 | without bars, every run that only a feeder could continue has all results, no statuses, and the largest mapped code or 130 |
| WholeRun.BatchCodeRange | vmupdate/vmupdate.py:391-424 | what a batch returns is 0, 21 to 26 or 130: 1 and 40 never surface, nor does 100 |
| WholeRun.DocumentedCodes | vmupdate/vmupdate.py:133-140 | every exit code of a run is a documented one |
| WholeRun.HundredIff | vmupdate/vmupdate.py:136-137 | 100 exactly if requested, all parts have code 0 and all statuses say "no updates" |
| WholeRun.CrashIff | vmupdate/vmupdate.py:443-450 | a run raises exactly if no batch returned 130, updates are to be applied, and some target has no status |
| WholeRun.CanCrashIff | vmupdate/vmupdate.py:443-450 | some run without SIGINT raises exactly if updates are to be applied, it is not dry, there are independent targets, and either there are no bars, or some target has no bar under its own name, or there are two and one can double its DONE |
| WholeRun.RaisingCopyCrashes | vmupdate/qube_connection.py:172-183 | two templates with bars, the copying to one of which raises, are such a case |
| WholeRun.GoodExitIff | vmupdate/vmupdate.py:84-140 | 0 or 100 exactly if in all batches every qube went well without SIGINT and, if updates are to be applied, all statuses were found and all shutdowns and starts succeeded; with bars and without, second DONEs included |
| WholeRun.HundredIsTrue | vmupdate/vmupdate.py:104-137 | with bars, 100 says of every qube of every batch that its last status was NO_UPDATES |
| WholeRun.DryRunEnds | vmupdate/vmupdate.py:90-137 | a dry run exits with 0, or with 100 if asked for and only the admin VM was selected |
| FineRuns.FullVerdict | vmupdate/update_manager.py:382-409 | a qube returns 0 exactly if its set-up, transfer, entrypoint and leaving went well, where commands killed by a signal pass, and its status is then SUCCESS or NO_UPDATES |
| FineRuns.ZeroIff | vmupdate/update_manager.py:96-143 | any batch run that has gone on as long as it can has code 0 exactly if there was no SIGINT and every qube went well |
| Executions.ExecutionCode | vmupdate/vmupdate.py:416-424 | the code of any execution, with or without bars: 0, 21 to 26 or 130; 130 exactly after SIGINT, 0 exactly if besides every qube went well |
| Executions.StatusesAreComplete | vmupdate/update_manager.py:312-336 | with bars and without a second DONE, every qube has its own status |
| Executions.MissingMeans | vmupdate/update_manager.py:312-336 | a status missing at the end implies two qubes and a possible second DONE |
| Executions.Finish | vmupdate/update_manager.py:96-123 | every state leads, without SIGINT, to one that cannot go on |
| Executions.SomeExecution | vmupdate/update_manager.py:96-143 | every batch has an execution without SIGINT, with bars and without |
| Executions.SomeExecutionMisses | vmupdate/update_manager.py:404-408 | and, with two qubes and a possible second DONE, one that lacks a status |
| WholeRun.QuietRunReportsNoUpdates | vmupdate/vmupdate.py:104-137 | without bars, 100 exactly if every qube went well, updated or not, and there is no target to apply updates of |
| ApplyPhase.Admin.ShutdownDomains | vmupdate/utils.py:32-50 | who is asked, who halts, and code 12 exactly if a request failed |
| ApplyPhase.Admin.RestartVms | vmupdate/vmupdate.py:529-543 | only qubes whose shutdown succeeded are started; 13 wins over 12 |
| ApplyPhase.Admin.DerivedToApply | vmupdate/vmupdate.py:505-526 | the two disjoint sets of outdated derived qubes |
| ApplyPhase.Admin.ShutdownTemplates | vmupdate/vmupdate.py:451-492 | derived qubes of a template that stays up are left out after recomputing |
| ApplyPhase.Admin.ApplyUpdates | vmupdate/vmupdate.py:443-502 | the whole effect on running, asked and started qubes and the code; raises exactly if a target has no status |
| ApplyPhase.AffectedShrinks | vmupdate/vmupdate.py:487-492 | fewer templates and fewer running qubes only shrink both sets |
| ApplyPhase.TemplatesDoNotMatter | vmupdate/vmupdate.py:476-492 | halting templates does not change which derived qubes are outdated |
| ApplyPhase.ApplySafety | vmupdate/vmupdate.py:427-543 | a derived qube is asked only if it ran, is outdated, and its updated template is down; started only after its own shutdown; 0 exactly if every request succeeded |
| ApplyPhase.ApplyDoes | vmupdate/vmupdate.py:446-502 | neither more nor less: exactly who is asked and who is started, who runs afterwards, and which of 0, 11, 12 and 13 comes out of which failures |
| Progress.ProgressPhase.NotifyCallback | vmupdate/agent/source/common/progress_reporter.py:59-74 | for any percentage: the hundredth nearest to that share of the way from start to stop, an even one in a tie, is reported exactly if it lies above the start of the phase and above every report so far |
| Progress.NearestIsUnique | vmupdate/agent/source/common/progress_reporter.py:71 | there is only one such hundredth |
| Progress.Divide | vmupdate/agent/source/common/progress_reporter.py:114-122 | three adjacent intervals that make up [0, 100] |
| Progress.EndsOrdered | vmupdate/agent/source/common/progress_reporter.py:114-116 | the ends are ordered, within [0, 100], and divide it in proportion to the weights |
| Progress.PhaseReports | vmupdate/agent/source/common/progress_reporter.py:59-74 | a phase's reports increase strictly, stay above its start and at most at its rounded end |
| Progress.StreamBounds | vmupdate/agent/source/common/progress_reporter.py:59-122 | all reports together never decrease, lie in (0, 100], and number at most 10000 plus one per inner boundary that rounds up |
| Progress.StrictIff | vmupdate/agent/source/common/progress_reporter.py:71-74 | every stream is strictly increasing if and only if no inner boundary rounds up |
| Progress.BoundaryTwice | vmupdate/agent/source/common/progress_reporter.py:71-74 | percentages that report a boundary twice |
| Progress.EqualWeightsRepeat | vmupdate/agent/source/common/progress_reporter.py:114-122 | the weights 1/1/1 reach such a boundary: 66.67 is reported twice |
| Progress.ShippedWeights | vmupdate/agent/source/dnf/dnf_api.py:83-88 | the weights 10/45/45, 0/55/45 and 4/48/48 give strictly increasing streams of at most 10000 reports |
| Counters.DnfFetchProgress.Start | vmupdate/agent/source/dnf/dnf_api.py:239-259 | the packages are forgotten unless this is a refresh; the counter is not reset |
| Counters.DnfFetchProgress.Progress | vmupdate/agent/source/dnf/dnf_api.py:226-237 | the package has the figure reported and all others theirs, the counter moves by the difference, the percentage is their ratio; raises before a start and on an empty total |
| Counters.DnfFetchProgress.RefreshRepos | vmupdate/agent/source/dnf/dnf_api.py:101-107 | repository i of n reports exactly i/n, all in [0, 100] |
| Counters.DnfProgressExact | vmupdate/agent/source/dnf/dnf_api.py:233-234 | a call keeps counter and sum equal, or unequal |
| Counters.DnfStartExact | vmupdate/agent/source/dnf/dnf_api.py:249-258 | exactly when a further start leaves the counter right |
| Counters.SecondStartBreaks | vmupdate/agent/source/dnf/dnf_api.py:249-258 | a counter that a second start makes wrong |
| Counters.DnfRun | vmupdate/agent/source/dnf/dnf_api.py:226-259 | after one start the counter is the sum of the packages for all callbacks |
| Counters.DnfRunPercents | vmupdate/agent/source/dnf/dnf_api.py:226-259 | after one start with the announced total every percentage of a run is in [0, 100], while packages stay within their sizes |
| Counters.DnfFigures | vmupdate/agent/source/dnf/dnf_api.py:233-234 | after one start every package has the last figure reported for it |
| Counters.DnfCompletes | vmupdate/agent/source/dnf/dnf_api.py:226-237 | once all packages have reported their announced sizes the percentage is 100 |
| Counters.Dnf5FetchProgress.AddNewDownload | vmupdate/agent/source/dnf/dnf5_api.py:178-195 | a new number, the total raised, the package at 0 |
| Counters.Dnf5FetchProgress.Progress | vmupdate/agent/source/dnf/dnf5_api.py:197-229 | for any report: what happens to the counters, that it notifies on growth only, and that it raises exactly for an unknown number or for growth while nothing is to be fetched |
| Counters.Dnf5Drift | vmupdate/agent/source/dnf/dnf5_api.py:214-222 | a decreasing report moves the counter away from the sum by exactly the decrease |
| Counters.Dnf5RunDrift | vmupdate/agent/source/dnf/dnf5_api.py:178-229 | over a whole run the counter keeps its distance to the sum exactly if no report falls below its package's figure |
| Counters.Dnf5StepAgrees | vmupdate/agent/source/dnf/dnf5_api.py:189-222 | growing downloads keep counter, sum and sizes in agreement, also while downloads are added |
| Counters.Dnf5Percent | vmupdate/agent/source/dnf/dnf5_api.py:223 | the divisor is positive and the percentage in [0, 100] |
| Counters.Dnf5RunPercents | vmupdate/agent/source/dnf/dnf5_api.py:178-229 | so is every percentage notified in a whole run |
| Counters.Dnf5Completes | vmupdate/agent/source/dnf/dnf5_api.py:223 | once all downloads have reached their sizes the percentage is 100 |
| Counters.TransactionPercents | vmupdate/agent/source/dnf/dnf5_api.py:293-343 | transaction percentages are in range and never fall as packages proceed |
| Counters.TransactionProgress.PackageProgress | vmupdate/agent/source/dnf/dnf5_api.py:293-326 | raises exactly on an empty package, before the start or on an empty transaction; in [0, 100] while counts are in order |
| Counters.TransactionProgress.ElemProgress | vmupdate/agent/source/dnf/dnf5_api.py:341-343 | moves to the package before it may raise; percentage against its own total |
| Counters.TransactionRun | vmupdate/agent/source/dnf/dnf5_api.py:278-343 | over a whole transaction that goes forward the percentages never fall and stay at or below 100 |
| Counters.Dnf5Upgrade | vmupdate/agent/source/dnf/dnf5_api.py:73-76 | from the callbacks of a whole dnf5 upgrade to at most 10000 strictly increasing reports in (0, 100] |
| Display.CollectStderr | vmupdate/qube_connection.py:310-340 | the loop over the agent's lines puts the messages of the specification, and stops where it raises |
| Display.ReaderRaisesIff | vmupdate/qube_connection.py:320-330 | exactly a blank line before 100 raises |
| Display.BlankLineRaises | vmupdate/qube_connection.py:320-330 | a line that does |
| Display.LastWordIsRead | vmupdate/qube_connection.py:321-336 | a text that ends in a number counts as that number |
| Display.TextIsHandedOn | vmupdate/qube_connection.py:326-340 | a text whose last word is no number, and any text after 100, is handed on |
| Display.SanitizeKeeps | vmupdate/agent/source/common/process_result.py:85-94 | of a line remain exactly the printable characters, all of them, in their order |
| Display.PrintableMeans | vmupdate/agent/source/common/process_result.py:92 | printable are the characters from the blank to the tilde |
| Display.FormatRoundTrip | vmupdate/agent/source/common/progress_reporter.py:108-110 | a value printed with two decimals is parsed as itself |
| Display.FormatSample | vmupdate/agent/source/common/progress_reporter.py:108-110 | 12.34 is written and read as such |
| Display.LineRoundTrip | vmupdate/agent/source/common/process_result.py:85-94 | sanitising a printed line only removes its newline |
| Display.ReaderAgrees | vmupdate/qube_connection.py:310-340 | reading an agent's reports puts one message each and ends with the last report, although lines after 100 are no longer parsed |
| Display.BarAgreesWithAgent | vmupdate/qube_connection.py:332-336 | from percentages to the bar: it shows the agent's last report after any interleaving with printed lines, DONEs and other qubes' messages |
| FinalBars.FinalBar | vmupdate/update_manager.py:96-123 | at the end of every batch run, the bar of each qube whose entrypoint was started shows its agent's last report |
| FinalBars.BlankLineLosesStatus | vmupdate/qube_connection.py:320-330 | a blank line of one agent before its 100 can lose a qube's status in a batch of two or more |
| ProcessResult.Result.constructor | vmupdate/agent/source/common/process_result.py:36-53 | a realtime result shows its text and counts as posted |
| ProcessResult.Result.Add | vmupdate/agent/source/common/process_result.py:101-117 | larger code, texts in order, text shown exactly if not shown before |
| ProcessResult.FlatCode | vmupdate/agent/source/common/process_result.py:108 | the merged code is the maximum of the codes and 0 |
| ProcessResult.GroupingDoesNotMatter | vmupdate/agent/source/common/process_result.py:96-117 | any nesting of merges gives the flat merge of its leaves |
| PackageDiff.CompareIsPatch | vmupdate/agent/source/common/package_manager.py:233-251 | the difference turns the old packages into the new ones, and reversed the new into the old |
| PackageDiff.ComparePartitions | vmupdate/agent/source/common/package_manager.py:243-251 | every package is in exactly one of installed, updated, removed and unchanged |
| PackageDiff.NothingNewIff | vmupdate/agent/source/common/package_manager.py:149-150 | nothing installed or updated exactly if the new packages are a restriction of the old |
| Pipeline.HasNewer | vmupdate/agent/source/common/package_manager.py:185-187 | some installed version is newer than required |
| Pipeline.SortRequirements | vmupdate/agent/source/common/package_manager.py:181-189 | missing requirements and those installed in no newer version |
| Pipeline.InstallRequirements | vmupdate/agent/source/common/package_manager.py:167-205 | fails exactly if a needed command does; nothing is shown twice |
| Pipeline.Prepare | vmupdate/agent/source/common/package_manager.py:97-128 | where `hard_fail` stops, with which code and which text shown |
| Pipeline.Conclude | vmupdate/agent/source/common/package_manager.py:130-152 | the code after the upgrade, and the summary only if all went well |
| Pipeline.Upgrade | vmupdate/agent/source/common/package_manager.py:86-152 | the stage code, and every reached stage's text shown once in order unless shown before |
| Pipeline.HardFailCode | vmupdate/agent/source/common/package_manager.py:107-128 | with `hard_fail` the first failing stage's code, and 100 exactly if none failed and nothing was new |
| Pipeline.ForcedFailureMasked | vmupdate/agent/source/common/package_manager.py:130-135 | without it an earlier failure becomes 100 exactly if the backend says 100 |
| Pipeline.FailedRefreshMasked | vmupdate/agent/source/common/package_manager.py:114-135 | a failed refresh that is reported as 100 |
| Pipeline.StageCodes | vmupdate/agent/source/common/package_manager.py:105-150 | only 0, 100, 22, 23 and 24 come out |
| Pipeline.WhichCode | vmupdate/agent/source/common/package_manager.py:97-152 | which of 0, 22, 23, 24 and 100 comes out, told from commands, stages and packages |
| Pipeline.ShownMeans | vmupdate/agent/source/common/package_manager.py:93-147 | exactly which texts are shown |
| Pipeline.Entrypoint | vmupdate/agent/entrypoint.py:43-67 | the final code is always a handled one; clean-up gives 25 unless the run said "no updates"; captured streams are never printed again |
| Pipeline.AgentCodeArrives | vmupdate/update_manager.py:145-157 | from agent to batch: documented error codes arrive unchanged, 0 as SUCCESS, 100 as NO_UPDATES |
| XenCfg.CopyDefault | system-config/kernel-xen-efi.install:43-80 | the one-pass scan outputs the default section under the new header, with kernel and ramdisk replaced, or nothing |
| XenCfgHistory.FoundIsFirst | system-config/kernel-xen-efi.install:44-65 | the section copied begins at the first line that is the header named by the last `default=` line read under `[global]` before it |
| XenCfg.XenConfig.Add | system-config/kernel-xen-efi.install:41-84 | the file after an installation, including the missing final newline |
| XenCfg.XenConfig.Remove | system-config/kernel-xen-efi.install:89-106 | the file without the sections of that kernel |
| XenCfgRuns.MentionsIff | system-config/kernel-xen-efi.install:41 | the guard: some line holds the whole bracketed name |
| XenCfgRuns.AddedLines | system-config/kernel-xen-efi.install:41-84 | the file after an installation, line by line, for any file |
| XenCfgRuns.InsideIff | system-config/kernel-xen-efi.install:91-99 | inside a section: its header comes last of all headers so far |
| XenCfgRuns.RemovedLines | system-config/kernel-xen-efi.install:89-106 | after a removal exactly the lines outside those sections remain, in their order |
| XenCfgRuns.DefaultValueIs | system-config/kernel-xen-efi.install:62-65 | the default is what stands between the first two `=` |
| XenCfgHistory.NewSectionIs | system-config/kernel-xen-efi.install:55-80 | the new section is the whole section that `default=` names, line by line: `kernel=` and `ramdisk=` lines keep everything from the first blank on and get the new file name, all other lines are the same |
| XenCfgHistory.AddedBodiesIff | system-config/kernel-xen-efi.install:41-84 | for any file: installing leaves another kernel's body as it was, but for `default=` lines, exactly if the section the file ends in absorbs nothing |
| XenCfgHistory.NewBodyIff | system-config/kernel-xen-efi.install:55-84 | the new kernel's body is the rewritten default's, exactly if its header is not glued to the last line |
| XenCfgHistory.RemovedBodies | system-config/kernel-xen-efi.install:89-106 | removing leaves every other body as it was and its own empty |
| XenCfgHistory.RedirectCommutes | system-config/kernel-xen-efi.install:83 | rewriting `default=` lines commutes with selecting and dropping sections |
| XenCfgHistory.RemoveUndoesAddIff | system-config/kernel-xen-efi.install:41-106 | removing after installing gives back the file but for `default=` lines, exactly if the last line ends with a newline, nothing was appended, or a lone header vanished in a `default=` line |
| XenCfgRuns.AddTwiceIff | system-config/kernel-xen-efi.install:41-84 | for any file: installing twice equals installing once, with the exact exception |
| XenCfgRuns.AddTwiceNamed | system-config/kernel-xen-efi.install:41-84 | no exception if `default=` gives a name, found or not, and no `default=` line holds `[global]` |
| XenCfgRuns.AddedDefaultExact | system-config/kernel-xen-efi.install:41-84 | for any file: where `default=` points after an installation |
| XenCfgRuns.AddedResolvesIff | system-config/kernel-xen-efi.install:41-84 | if no `default=` line holds `[global]`: after an installation `default=` resolves exactly if it did before and the new header was not lost |
| XenCfgRuns.AddedDefaultIs | system-config/kernel-xen-efi.install:80-83 | then with a named default, the new kernel becomes the default if the file ends with a newline, and otherwise `default=` resolves to nothing |
| XenCfgRuns.RemovedResolves | system-config/kernel-xen-efi.install:87-106 | removing another kernel, in whose section no default is read, leaves the default where it was, or lost |
| XenCfgRuns.GlobalReadsNothing | system-config/kernel-xen-efi.install:52-65 | none is read in a kernel's section if `[global]` is only written in headers |
| XenCfgLog.DoResolves | system-config/kernel-xen-efi.install:41-106 | one operation: exactly when `default=` still resolves |
| XenCfgLog.DoKeepsBodies | system-config/kernel-xen-efi.install:41-106 | one operation: exactly when another kernel's body stays |
| XenCfgLog.HistoryResolvesIff | system-config/kernel-xen-efi.install:41-106 | over every history that never removes the current default or the section it is read in, from a file with or without a final newline whose `default=` lines do not hold `[global]`: it resolves at the end exactly if the first operation that changes anything does not lose the new header |
| XenCfgLog.NamedDefaultResolvesIff | system-config/kernel-xen-efi.install:41-106 | then with a named default: exactly if the file ends with a newline, nothing changes, or a removal comes before the first new kernel |
| XenCfgLog.LostStaysLost | system-config/kernel-xen-efi.install:41-106 | no later installation or removal brings a lost default back |
| XenCfgLog.HistoryKeepsBodiesIff | system-config/kernel-xen-efi.install:41-106 | over every history, also one that removes the default, from a file whose `default=` lines do not hold `[global]`: a section not installed or removed keeps its body, but for `default=` lines, exactly if the first operation that changes anything is not absorbed there |
| XenCfgSamples.UnterminatedGoesWrong | system-config/kernel-xen-efi.install:80-83 | an ordinary file without a final newline: default lost, another body changed, removal does not undo |
| XenCfgSamples.UnnamedAddsTwice | system-config/kernel-xen-efi.install:56-83 | a file to which installing twice adds twice |
| XenCfgSamples.RemovalLosesDefault | system-config/kernel-xen-efi.install:89-106 | a file whose default is read inside another kernel's section, and lost with it |
| UkiLayout.MaskRoundsDown | uki-generate:24 | clearing the low 21 bits rounds down to a 2 MiB boundary |
| UkiLayout.RoundToNextIsLeast | uki-generate:56-61 | aborts exactly above 2^64 - 2^21, otherwise the least boundary at or above, within 64 bits |
| UkiLayout.SectionAdder.AddSection | uki-generate:14-18 | the section goes to the next boundary and the address to its end, or the program ends |
| UkiLayout.SectionAdder.AddAll | uki-generate:63-68 | all sections are laid out in order, or it stopped above the last 64-bit boundary |
| UkiLayout.Layout | uki-generate:63-68 | aligned, ordered, disjoint, at or above the base, less than 2 MiB unused before each |
| UkiLayout.BaseBounds | uki-generate:47-55 | the base is at or above every start and every size |
| UkiLayout.BaseIsAttained | uki-generate:47-55 | and one of them, or 0 without sections |
| UkiLayout.ClearOfExistingIff | uki-generate:55-68 | added sections stay clear of present ones exactly if none reaches past an added start |
| UkiLayout.ClearIffBaseIsHighEnough | uki-generate:55-68 | which they do exactly if every non-empty hypervisor section ends at or below the rounded base |
| UkiLayout.LargeSectionIsOverlapped | uki-generate:55 | a hypervisor section at a boundary and no larger than its start is overlapped by the configuration |
| ReceiveUpdates.PackageNamesAreSafe | dom0-updates/qubes-receive-updates:89-95 | an accepted name has no slash, NUL or escape, so the assertions never fail |
| ReceiveUpdates.NameMeans | dom0-updates/qubes-receive-updates:41 | a good name is a stem of 1 to 256 allowed characters, beginning with a letter or digit, and `.rpm` |
| ReceiveUpdates.AcceptedMeans | dom0-updates/qubes-receive-updates:89-127 | accepted: good name, regular, canonicalised, code 0 and the exact signature line |
| ReceiveUpdates.UpdatesDir.Verify | dom0-updates/qubes-receive-updates:89-127 | accepts exactly a regular, canonicalised file with a good name and the exact signature line |
| ReceiveUpdates.UpdatesDir.VerifyAll | dom0-updates/qubes-receive-updates:88-127 | the loop ends well exactly if every file is accepted, and the directory then holds exactly these |
| ReceiveUpdates.UpdatesDir.Handle | dom0-updates/qubes-receive-updates:62-138 | all files accepted, kept and described by metadata, or the directory is gone and there is none |

## Left out

- Calls to qrexec, the admin API, package managers, `objdump`, `rpmkeys` and the like: their codes, output and exceptions are inputs.
- The process pool and the shared queue themselves: a pool with a fixed number of slots, a FIFO queue and one callback per task are assumed.
- Floating point: percentages and byte counts are exact reals, and rounding is to the nearest hundredth with ties to even.
- Display.FormatRoundTrip: Python's `float` is fixed only for plain decimals; what it makes of other texts is an arbitrary function.
- Texts of results in dom0, bar descriptions, log output and the layout of the terminal: presentation.
- BatchRun.FeederExit: assumes distinct bars; with `--display-name` and several targets all share one bar.
- MissingStatus.BatchTheorem: assumes that messages reach the qube's own bar, see `Worker.NamesAgree`; for batches with a second DONE `FineRuns.CodeTheorem` gives the code and `MissingStatus.MissingStatusIff` the statuses.
- WholeRun.CanCrashIff: names of qubes are unique, and bars of one batch are distinct.
- Worker.DoneAccounting: assumes that the reader threads put no DONE, which they have no code for.
- Counters.Dnf5RunPercents: for downloads that grow within their announced size; for others there is no bound, and `Counters.Dnf5RunDrift` gives the drift.
- Counters.TransactionProgress.PackageProgress: the stateless display of dnf, which counts packages from one, is covered by the percentage alone.
- Pipeline.Entrypoint: the fixed percentages printed without progress support and the notification of dom0 are left out.
- Pipeline.Upgrade: the text of the package summary is an input; its code is always 0.
- XenCfg.XenConfig.Add: the first awk program reads the file while its own output is appended; reading is taken to end at the original end of file.
- XenCfgRuns.AddTwiceIff: kernel versions hold none of `[ ] = & / \` and are not `global`; the same holds for the histories.
- XenCfgRuns.AddedResolvesIff: assumes that no `default=` line holds `[global]` itself; `XenCfgRuns.AddedDefaultExact` does not.
- XenCfgRuns.RemovedResolves: that no default is read in the removed section suffices, and is not shown to be necessary.
- Copying of kernels and ramdisks by the installation script: file plumbing.
- UkiLayout.ClearIffBaseIsHighEnough: says nothing for an empty configuration file; `UkiLayout.ClearOfExistingIff` does.
- UkiLayout.BaseBounds: parsing of section headers is left out; sections are given as numbers.
- ReceiveUpdates.UpdatesDir.Handle: ownership, modes and the temporary directory are left out; a failing metadata tool is taken to leave no metadata.
- ProcessResult.Result.Add: merging a result into itself is not modelled.
- ApplyPhase.Admin.ApplyUpdates: qubes do not start or stop on their own, and derived qubes are visited in any order.
- Target selection, argument parsing, plugins, the microcode table and the C copy tools: flat filters and plumbing that have no deep property.
