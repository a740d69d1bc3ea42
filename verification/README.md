# SvcHostify, modelled and proved

SvcHostify turns an executable, a JVM class, a COM object or a C library into a Windows service, hosted by
`svchost.exe` or by its own `rundll32.exe` process. This project models the parts of it that hold real logic and
proves what they guarantee:

- **The service lifecycle** (`ServiceStatus`, `Lifecycle`, `LifecycleSafety`, `LifecycleTheorems`,
  `LifecycleAtomic`, `LifecycleRaces`, `LifecycleIntended`, `LifecycleHistories`): `ServiceMain`, `start`,
  `run_business`, `stop`, the control handler, the wait callback and `report_status` as a labelled step system with
  one program counter per thread. Each assignment of a status report is a step of its own. An inductive invariant
  holds over every interleaving in both hosting modes, and every theorem is about every reachable state or every run.
  The sequences of reports that whole runs make are characterised exactly, in each mode.
- **The same process as an object** (`ServiceProcess`, `ServiceProcessRefinement`): the class with its fields and
  methods, executed by one thread, and the proof that in either mode it does exactly what the step system does when
  no STOP and no callback interfere.
- **Two workers**: the C++ sample plugged into the lifecycle (`SampleWorker`, `SampleRuns`), and the executable worker
  with its two handles and its child process (`ExecutableWorker`, `ExecutableHistory`).
- **The command line** (`CommandLine`, `CommandLineRoundTrip`, `CommandLineQuoting`): the printer, the splitter that
  `CommandLineToArgvW` documents, the exact set of argument lists that survive both, a quoting that every list of
  arguments survives, and a second reader that agrees with the splitter on every line.
- **Registry and installation** (`RegistryPath`, `MultiString`, `Registry`, `ServiceManager`,
  `InstalledServices`, `InstalledEntries`): paths, the multi-string codec, a registry tree, the ordered effects of
  `install` and `uninstall`, their refinement of "the set of installed services", what a failed installation leaves
  behind, and the installed values literally, down to what the registered command line means.
- **File sizes** (`FileSize`, `LoggerConfig`): the scanner behind the size pattern, 64-bit products, the size
  printer, and which sizes the logger configuration accepts.

## Assumptions

About Windows and the library the program is built on, none of which is part of this model:

- The control manager dispatches STOP only when the last status that reached it accepts STOP and is neither
  STOP_PENDING nor STOPPED, to a registered handler, one control at a time. In standalone mode it does so from the
  dispatcher's thread. `SetServiceStatus` with a null handle reaches nobody.
- The wait callback fires at most once and only after the worker thread has exited. Only svchost pushes global data.
- An exception that leaves `start()` on the dispatcher's service thread ends the process.
- `CommandLineToArgvW` follows its documented rules for backslashes and quotes, for the program name, and for an
  empty command line.
- The service control manager keeps its services under `SYSTEM\CurrentControlSet\Services`, refuses a name it
  knows, and drops a service's branch when the service is deleted. Writing a value creates the missing keys above
  it; a failing call has no effect; deleting a tree deletes the key itself and fails if there is none. Key and
  value names are compared without regard to ASCII case.
- A digest is any string of one fixed length without separators; SHA3-224 (section 6.1 of FIPS 202) gives one.
  Text conversion between encodings is the identity.
- A hash map keeps the first of several entries with equal keys. An owning handle closes what it held when it is
  reset, assigned or destroyed, is empty after it was moved from, and survives being moved to itself.

## What the code does that it was not meant to do

Each of these is proved. Where the code meets its intent on some inputs or runs and not on others, so is the exact
condition:

- The STOP_PENDING of a handler that was dispatched before the worker ended by itself can be published after the
  final STOPPED; the control manager then believes for ever that the service is stopping (`StopPendingCanComeLast`).
  A published STOPPED is final if and only if the process has ended or no STOP_PENDING is due from a handler, that
  is, none that has yet to write the state or whose state still stands in the record (`StoppedIsFinalIff`).
- Overlapping reports can mix two statuses (`OverlapCanTear`). Over every run, all published statuses are the
  intended ones if and only if at each publication state, wait hint and checkpoint were last assigned by a report of
  the state published (`IntendedIffNeverMixed`). Without a callback that means, for runs that end with no report
  under way, that no two reports overlap (`IntendedIffUndisturbed`). In every run it is enough that the handler's
  report overlaps no report of STOPPED (`HandlerAloneIsIntended`), as when no STOP is dispatched
  (`WithoutStopIsIntended`).
- In standalone mode a failure in `ServiceMain` is reported through a null handle (`StandaloneCatchIsUnheard`), and a
  dispatcher that cannot be started is not reported at all (`StandaloneHistoriesIff`).
- The sample's `on_stop`, if it comes before its `run` has stored true, is lost and the loop never ends (`StopIsLost`).
- A second start without an intervening wait, or moving onto a worker that minds a live child, abandons that child
  (`OrphanStep`, `OneStartOrphansIff`, `SecondStartOrphans`, `OverwritingOrphans`).
- Printing arguments loses empty ones, unquoted tabs, and backslashes that touch a quote (`TailRoundTrip`).
- `HKEY_LOCAL_MACHINE` names the classes root, and `HKEY_CLASSES_ROOT` names nothing (`RootsExceptTwo`).
- Reading a multi-string back gives one empty string too many (`DecodeOfEncode`).
- An installation that fails between the group value and the group key leaves the value behind when it is undone
  (`FailedInstallThenUninstall`). No uninstallation removes it (`LeftoverOutlastsUninstall`); the next complete
  installation and its uninstallation do (`LeftoverGoesWithNextInstall`).
- Sizes below one TiB are all printed as "0 TiB" (`TruncateAsWritten`); unit names are matched without regard to
  case and then looked up with regard to it (`CaseMattersIff`, `OtherCasesAreRejected`); products wrap around (`PassesWronglyIff`).

Where intent and code differ, members named `Intended…` model the intent.

## Model

| member | source | states |
|---|---|---|
| ServiceStatus.UndisturbedReport | src/service_process.cpp:166-176 | An uninterrupted report overwrites the whole record: the result is determined by the reported state and the number of pending reports modulo 2^32, whatever the record held before. |
| LifecycleSafety.InvStep | src/service_process.cpp:56-176 | Control, scope, status and trace invariants together are inductive: every step of every thread in either mode keeps them. |
| LifecycleSafety.InvReachable | src/service_process.cpp:56-176 | The invariants hold in every reachable state, including that the published trace is the one the program counters call for. |
| LifecycleTheorems.StoppedOnlyOutsideRun | src/service_process.cpp:96-136 | In no interleaving and neither mode is STOPPED published, by request or by a race, between the worker entering `run` and leaving it. |
| LifecycleTheorems.PromiseOutlivesWorker | src/service_process.cpp:96-115 | When the worker thread sets the promise, the promise is alive and unfulfilled; it is destroyed only when the thread does not exist or has exited. |
| LifecycleTheorems.JoinedBeforeLeaving | src/service_process.cpp:96-136 | The worker thread is joined before `run_business` is left normally or by an exception, before `start` reports STOPPED, and before the callback reports. |
| LifecycleTheorems.StopOnlyAfterStart | src/service_process.cpp:56-77 | Every handler-driven `on_stop` is preceded in the trace by the worker's emplacement and a normal return of `on_start`, although the handler is registered earlier. |
| LifecycleTheorems.AtMostOneStop | src/service_process.cpp:138-164 | No run dispatches STOP twice, so the worker gets at most one `on_stop` from the handler. |
| LifecycleTheorems.TallyShape | src/service_process.cpp:120-136 | A trace accepted by the tally opens with START_PENDING and RUNNING as far as its phase says and continues with exactly the closing reports it counts. |
| LifecycleTheorems.ReportsAreDue | src/service_process.cpp:96-176 | In every reachable state the reports made so far are, up to the order of the closing ones, those determined by the program counters. |
| LifecycleTheorems.SvchostHistories | src/main.cpp:145-164 | A completed svchost run reports STOPPED; or START_PENDING, STOPPED; or START_PENDING, RUNNING and then, in any order, exactly one STOPPED of the host path, at most one STOP_PENDING and at most one STOPPED of the callback. |
| LifecycleHistories.SvchostHistoriesIff | src/service_process.cpp:61-146 | A sequence of reports is that of a completed svchost run if and only if it is STOPPED; or START_PENDING, STOPPED; or START_PENDING, RUNNING and then, in any order, exactly one STOPPED of the host path, with or without a STOP_PENDING, with or without a STOPPED of the callback. |
| LifecycleHistories.StandaloneHistoriesIff | src/service_process.cpp:61-77 | A sequence of reports is that of a standalone process that came to its end if and only if it is empty; or STOPPED; or START_PENDING; or START_PENDING, RUNNING and then, in any order, with or without the STOPPED of `start`, with or without a STOP_PENDING. |
| LifecycleHistories.StopReachesWorker | src/service_process.cpp:138-164 | From every reachable state of a process that has not ended, the handler's own steps lead to one where `on_stop` has been called exactly as often as STOP was dispatched, which is at most once, and has returned. |
| LifecycleTheorems.StandaloneHistories | src/service_process.cpp:61-77 | A standalone run reports at most one STOPPED on its host and service threads, none from a callback, and none on those threads once `start` has thrown. |
| LifecycleTheorems.StandaloneCatchIsUnheard | src/main.cpp:159-163 | In standalone mode no step of the report in the catch block changes what the control manager knows. |
| LifecycleTheorems.StarterOwnsStatus | src/service_process.cpp:120-136 | From the start of `start` until RUNNING is published, a step that changes the status record or counter is a step of the starting thread's report, and nobody else is inside a report. |
| LifecycleTheorems.OverlapsAreLate | src/service_process.cpp:79-176 | Two reports are under way at once only after RUNNING, and one of them is then a STOPPED. |
| LifecycleTheorems.AfterClosing | src/service_process.cpp:108-146 | Once a closing report was made, every continuation adds only a STOP_PENDING whose handler was already dispatched, one STOPPED of the host path if it was still due, and one of the callback if it was still due. |
| LifecycleTheorems.SettledIsFinal | src/service_process.cpp:79-136 | With the host path's STOPPED made, no callback due and no handler about to report, no continuation reports anything or changes the published status. |
| LifecycleAtomic.AtomicStepReachable | src/service_process.cpp:166-176 | Every state the model with atomic reports reaches is reachable field by field. |
| LifecycleAtomic.RefineStep | src/service_process.cpp:166-176 | One field-by-field step is matched by one atomic step or none, unless it makes two reports overlap. |
| LifecycleAtomic.UndisturbedRunsAreAtomic | src/service_process.cpp:166-176 | Every run without overlapping reports has an atomic run with the same trace and a matching final state. |
| LifecycleAtomic.ContentRun | src/service_process.cpp:138-176 | Along every atomic run the checkpoint counter equals the number of pending reports, and every published status is the intended one. |
| LifecycleAtomic.UndisturbedReportsAreExpected | src/service_process.cpp:120-176 | In every run without overlaps, checkpoint, wait hint and accepted controls of every published status are the intended ones: START_PENDING 1, STOP_PENDING 2, otherwise 0; hint 10000 exactly when pending; STOP accepted exactly outside START_PENDING. |
| LifecycleRaces.WholeReport | src/service_process.cpp:166-176 | From any state, the steps of one report taken without interruption are a run and end where the atomic report ends. |
| LifecycleRaces.StoppedIsFinalIff | src/service_process.cpp:79-176 | In every reachable state in which the control manager holds STOPPED, in either mode, with or without a callback and with any reports under way: STOPPED stays the last word in all continuations if and only if the process has ended or no handler's report has yet to write the state or still has its state in the record. |
| LifecycleRaces.RacingIsReachable | src/service_process.cpp:96-146 | There is a run to a state where the worker has just ended by itself while a dispatched handler has not yet reported. |
| LifecycleRaces.StopPendingCanComeLast | src/service_process.cpp:138-176 | There is a completed run after which the control manager holds STOP_PENDING in every continuation. |
| LifecycleRaces.OverlapCanTear | src/service_process.cpp:166-176 | There is a run in which `start` has returned and the published status is STOPPED with the wait hint of a pending state. |
| LifecycleIntended.IntendedIffNeverMixed | src/service_process.cpp:138-176 | Over every run of every interleaving, with or without a callback: every published status has the intended checkpoint, wait hint and accepted controls if and only if, at each publication, state, wait hint and checkpoint were last assigned by a report of the state published. |
| LifecycleIntended.HandlerAloneIsIntended | src/service_process.cpp:108-176 | If the handler's report is never under way together with a report of STOPPED, every published status is the intended one, however the STOPPED of `start` and of the callback overlap. |
| LifecycleIntended.WithoutStopIsIntended | src/service_process.cpp:108-176 | In every reachable state before a STOP is dispatched, every published status is the intended one. |
| LifecycleIntended.IntendedIffUndisturbed | src/service_process.cpp:138-176 | Over every run that registers no callback and ends with no report under way, every published status is the intended one if and only if no two reports ever overlapped. |
| ServiceProcess.Impl.constructor | src/service_process.cpp:46-50 | A new process object has a zero status and counter, no handle, no worker, and has made no call. |
| ServiceProcess.Impl.RegisterControlHandler | src/service_process.cpp:89-94 | The handle becomes the result of the registration in svchost mode or when forced, and is untouched otherwise. |
| ServiceProcess.Impl.Init | src/service_process.cpp:56-59 | The name is stored, and the handler registered in svchost mode only. |
| ServiceProcess.Impl.ReportStatus | src/service_process.cpp:166-176 | The record and counter become those of the four assignments in order, and one call with the new record is made. |
| ServiceProcess.Impl.Stop | src/service_process.cpp:138-146 | Exactly two calls are made: STOP_PENDING is reported, and then `on_stop` is called, whether or not it throws. |
| ServiceProcess.Impl.Start | src/service_process.cpp:120-136 | The reports and the calls of the worker, in order, and the way it ends, for every outcome of the calls it makes. |
| ServiceProcess.Impl.Host | src/service_process.cpp:61-77 | The worker is put in place and `start` called, in standalone mode only if the dispatcher can be started; otherwise nothing is reported and the handle stays as it is. |
| ServiceProcess.Impl.ServiceMain | src/main.cpp:145-164 | In either mode the whole sequence of calls, for every outcome of every call; and the process ends with an exception exactly if `start` throws in standalone mode. |
| ServiceProcess.StandaloneStopsIff | src/service_process.cpp:61-77 | A standalone process is heard to have stopped if and only if session check, worker, dispatcher, registration, `on_start`, thread and `run` all succeed. |
| ServiceProcess.SvchostStopsOnce | src/main.cpp:145-164 | Whatever fails, STOPPED is reported exactly once, as the last call, and `on_stop` is never called; if the registrations succeed it is heard unless the session check was what failed. |
| ServiceProcess.SequentialReportsAreCanonical | src/service_process.cpp:166-176 | In any sequence of reports and worker calls of one thread, the k-th pending report carries checkpoint k modulo 2^32, RUNNING and STOPPED carry 0, and nothing else of earlier reports shows. |
| ServiceProcessRefinement.ServiceMainIsARun | src/main.cpp:145-164 | In either mode and for every outcome of every call, the statuses the object publishes, whether they are heard, and its calls of the worker are those of a run of the step system to its end without STOP and callback; its reports are one of seven literal sequences, determined by the outcome; and `start` is begun exactly if session check, worker and, in standalone mode, the dispatcher succeed. |
| ServiceProcessRefinement.RunIsServiceMain | src/main.cpp:145-164 | In either mode every run without STOP and callback that came to its end makes the calls of the object for the outcomes read off its last state. |
| ServiceProcessRefinement.ObjectMatchesStepSystem | src/service_process.cpp:61-136 | In either mode a sequence of calls is made by the object for some outcome if and only if some run of the step system to its end without STOP and callback makes it. |
| SampleWorker.LinkedRun | samples/cpp/test-service/src/entry.cpp:42-78 | Every state of the hosted sample is a reachable lifecycle state, and from the store on the flag stays set until `on_stop` has returned. |
| SampleWorker.RankStep | samples/cpp/test-service/src/entry.cpp:61-67 | Once `on_stop` has cleared a set flag, every step of the worker or starting thread lowers the measure by one and every other step leaves it. |
| SampleWorker.NeverStuck | src/service_process.cpp:96-136 | As long as the measure is positive, a step of the worker or starting thread is possible. |
| SampleWorker.StopTakesEffect | samples/cpp/test-service/src/entry.cpp:61-78 | After such a stop exactly as many own steps remain as the measure says, at most thirteen, and when none remain STOPPED has been reported. |
| SampleWorker.StopIsLost | samples/cpp/test-service/src/entry.cpp:61-78 | After a stop that comes before the store of true, no continuation ever leaves `run`, and none reports STOPPED once the worker thread exists. |
| SampleWorker.StopDichotomy | samples/cpp/test-service/src/entry.cpp:42-78 | In every hosted run the moment `on_stop` returns decides between the two. |
| SampleRuns.LoopIsReached | samples/cpp/test-service/src/entry.cpp:42-67 | However many arguments there are to print, that many steps and two more lead to the loop with the flag set. |
| SampleRuns.BothHappen | samples/cpp/test-service/src/entry.cpp:42-78 | In either mode and for any number of arguments there is a hosted run in which `on_stop` returns after the flag was set, and one in which it returns before, inside `run`. |
| CommandLine.Escape | src/util.cpp:127-150 | The appended result is the argument with every quote escaped, and surrounded by quotes exactly if it has a space or a quote. |
| CommandLine.DocumentedBackslashRule | src/util.cpp:114-124 | The splitter obeys the documented rule: 2n backslashes and a quote give n and a delimiter, 2n+1 give n and a quote, others stand for themselves. |
| CommandLine.ParseCommandLine | src/util.cpp:114-124 | The result is what the system function returns, in order, or nothing if it fails. |
| CommandLineQuoting.SplitOfQuoteAll | src/util.cpp:114-124 | Every list of arguments, empty ones and any characters included, comes back through the splitter when each is put in quotes, the backslashes before a quote or the end are doubled, quotes are escaped, and the results are joined by spaces. |
| CommandLineQuoting.ArgvOfQuoteAll | src/util.cpp:114-124 | The same for a whole command line after any program name without a quote, put in quotes. |
| CommandLineQuoting.SplitIsReadAll | src/util.cpp:114-124 | On every string the splitter, which keeps a state between characters, agrees with a reader that looks ahead instead: it skips white space, takes runs of backslashes by what follows them, and reads one argument at a time. |
| CommandLineRoundTrip.SplitConserves | src/util.cpp:114-124 | For every string, the quotes that come out of splitting are the literal ones, and backslashes and quotes that come out plus a computed loss are the backslashes that went in. |
| CommandLineRoundTrip.ComesBackOnlyIfSound | src/util.cpp:126-157 | A list that survives printing and splitting has no argument with a backslash before a quote, nor one that ends in a backslash and needs quotes; by counting. |
| CommandLineRoundTrip.MakeFeed | src/util.cpp:126-157 | How any list of sound arguments is read back: empty ones vanish, unquoted tabs are lost, everything else returns in order. |
| CommandLineRoundTrip.TailRoundTrip | src/util.cpp:126-157 | A list survives printing and splitting by the tail rules if and only if each argument is not empty, is sound, and has a tab only along with a space or quote. |
| CommandLineRoundTrip.NameRead | src/util.cpp:114-157 | When the first argument comes back through the program-name rule, and that the others are then split by the tail rules. |
| CommandLineRoundTrip.LineRoundTrip | src/util.cpp:114-157 | The exact round trip through the whole parser, with the program-name rule for the first argument and the rule for an empty line. |
| CommandLineRoundTrip.QuotedName | src/util.cpp:114-124 | A program name in quotes ends at the next quote, whatever is in it and whatever follows. |
| CommandLineRoundTrip.PlainName | src/util.cpp:114-124 | Any other program name, also the empty one, ends at the first white space or with the line. |
| RegistryPath.DecomposeIff | src/registry.cxx:85-101 | Exactly when a path without NUL decomposes, and into what: it is, up to the style of separators and any at its end, the literal name of a root, separators, and the sub-key without separators around it. |
| RegistryPath.DecomposeKey | src/registry.cxx:85-101 | A decomposition depends on the path only through its normalised form. |
| RegistryPath.DecomposedSubKey | src/registry.cxx:85-101 | A sub-key has no forward slash, no NUL, no separator at either end, and is not empty unless the path has a NUL. |
| RegistryPath.StyleDoesNotMatter | src/registry.cxx:85-101 | Paths that differ only in the style of their separators decompose alike. |
| RegistryPath.TrailingSeparatorsDoNotMatter | src/registry.cxx:85-101 | Appending a separator of either style changes nothing. |
| RegistryPath.DecomposeComposed | src/registry.cxx:85-101 | A known root, a separator and any clean sub-key decompose into that root and that sub-key. |
| RegistryPath.DecomposeAgain | src/registry.cxx:85-101 | Composing the parts of a decomposition and decomposing again gives the same pair if and only if the sub-key is not empty. |
| RegistryPath.RootsExceptTwo | src/registry.cxx:42-54 | For every name, what the table as written gives: the intended root, except that `HKEY_LOCAL_MACHINE` gives the classes root and `HKEY_CLASSES_ROOT` nothing. |
| MultiString.DecodeOfEncode | src/registry.cxx:143-151 | For every list of NUL-free strings, reading back what was written gives the list followed by one empty string, or two empty strings for the empty list. |
| MultiString.DecodeOfAny | src/registry.cxx:143-151 | Whatever is stored, terminated or not: from at most one character nothing is read, and otherwise strings without NUL that, joined again, are all that is stored but its last character. |
| MultiString.DecodeExactlyInverts | src/registry.cxx:165-172 | Dropping both terminators gives the list back if and only if it is not the list of one empty string. |
| MultiString.EncodeConfusesOnlyTwo | src/registry.cxx:165-172 | Encoding is injective on lists of NUL-free strings except that `[]` and `[""]` are encoded alike. |
| Registry.NameOfChild | src/registry.cxx:103-110 | A sub-key extended by one separator-free name denotes the child key of that name, up to case. |
| ServiceManager.Machine.SetRegistry | src/registry.cxx:103-110 | The tree and the outcome for an illegal path, a failing call and a successful one. |
| ServiceManager.Machine.DeleteRegistryTree | src/registry.cxx:192-197 | The tree and the outcome of deleting a key, which fails if the key is missing. |
| ServiceManager.Machine.DeleteRegistryValue | src/registry.cxx:199-204 | The tree and the outcome of deleting a value, which fails if the value is missing. |
| ServiceManager.Manager.constructor | src/service_manager.cpp:53-62 | The mode, group name and key paths derived in place are those of the specification. |
| ServiceManager.Manager.Install | src/service_manager.cpp:64-91 | For every set of failing calls, the state and the failing call are those of performing the ordered calls up to the first that fails. |
| ServiceManager.Manager.RegisterSvchost | src/service_manager.cpp:131-140 | Its five writes, in order, with early exit. |
| ServiceManager.Manager.Uninstall | src/service_manager.cpp:93-105 | For every set of failing calls, the state and the failing call; failures while deleting the group are swallowed. |
| ServiceManager.Manager.UnregisterSvchost | src/service_manager.cpp:142-147 | The group key's tree is deleted first, and the value only if that succeeded. |
| InstalledServices.GroupsDiffer | src/service_manager.cpp:57-61 | Services whose names differ under case folding have group names that do. |
| InstalledServices.OwnersAreUnique | src/service_manager.cpp:53-62 | No key and no value belongs to two different services. |
| InstalledServices.PerformAllAdds | src/service_manager.cpp:64-91 | An installation adds, by plain union, exactly the entries of the calls before its first failing one. |
| InstalledServices.UninstallAfter | src/service_manager.cpp:93-105 | Uninstalling after any part of an installation that created the service restores the world exactly, except if the group value is there and the group key is not. |
| InstalledServices.FailedInstallThenUninstall | src/service_manager.cpp:64-147 | For every point of failure, what failed installation followed by uninstallation leaves: nothing, except the group value exactly if the group key's write failed. |
| InstalledServices.LeftoverIsNew | src/service_manager.cpp:142-147 | The residue is a value that was not there before. |
| InstalledServices.LeftoverOutlastsUninstall | src/service_manager.cpp:93-105 | No uninstallation removes the residue, whichever of its calls fail, since it cannot open the service. |
| InstalledServices.LeftoverGoesWithNextInstall | src/service_manager.cpp:64-147 | Over the residue, a complete installation gives the same state as on a clean machine, and uninstalling then restores the clean machine exactly. |
| InstalledServices.InstallRefused | src/service_manager.cpp:71-76 | Installing an installed service fails at its creation and changes nothing. |
| InstalledServices.UnionIsUnique | src/service_manager.cpp:64-105 | The base and the set of installed services determine the whole state. |
| InstalledServices.ActRefines | src/service_manager.cpp:64-105 | Each action changes the state as it changes the set of installed services, keeps everything else, and succeeds exactly when the set changes. |
| InstalledServices.HistoryRefines | src/service_manager.cpp:64-147 | After any history of installations and uninstallations the state is the base plus the disjoint union of the entries of the services installed. |
| InstalledServices.InstalledServicesRefine | src/service_manager.cpp:64-147 | The same from a machine without any of them; once all are uninstalled the machine is exactly as it was. |
| InstalledEntries.InstalledValues | src/service_manager.cpp:64-140 | A complete installation adds exactly seven values if `standalone` is configured as false and two otherwise, given literally with their keys, names and data. |
| InstalledEntries.StandaloneCommandLine | src/service_manager.cpp:64-67 | The value registered for a standalone service, read as a command line, is rundll32, the library, `service` and the name, if rundll32 and the name are plain words and the path of the library can stand in quotes. |
| InstalledEntries.SvchostCommandLine | src/service_manager.cpp:64-67 | The value registered for an svchost service, read as a command line, is svchost, `-k` and a group; and the value of that name under the Svchost key is a multi-string that lists exactly the service. |
| InstalledEntries.UninstallWithFaults | src/service_manager.cpp:93-147 | Uninstalling a complete installation, for every set of failing calls: the first failing call on the control manager is the result and nothing changes; otherwise it succeeds and restores the machine, except for the group if deleting its key fails, and for the group's value if deleting that fails. |
| FileSize.ScanIsSearch | src/file_size_unit.cxx:49-62 | On every input the scanner's match is a match and comes before every other in the order in which a greedy leftmost search tries them; without one there is no match. |
| FileSize.CaseMattersIff | src/file_size_unit.cxx:41-66 | The case-sensitive lookup gives the tolerant result exactly if no unit is matched or it is spelled as in the table; otherwise the size is rejected. |
| FileSize.OtherCasesAreRejected | src/file_size_unit.cxx:41-69 | A number below 2^64, white space and a unit written in any mixture of cases: the product modulo 2^64 if the spelling is that of the table, and no size at all otherwise. |
| FileSize.ScanOfLaid | src/file_size_unit.cxx:49-62 | Where digits, spaces and a unit are laid out after text without digits, the scanner finds exactly them. |
| FileSize.ParseOfPrinted | src/file_size_unit.cxx:58-69 | For every number below 2^64, white space, unit, leading text without digits and trailing text, parsing gives the product modulo 2^64. |
| FileSize.RoundTrip | src/file_size_unit.cxx:58-69 | A number, a space and a unit are read as their product whenever it is below 2^64. |
| FileSize.TruncateAsWritten | src/file_size_unit.cxx:71-87 | The printer as written gives "0 TiB" below 2^40 and the plain number from there, so reading it back gives 0 or the number itself. |
| FileSize.IntendedTruncateLosesLittle | src/file_size_unit.cxx:71-87 | With the intended unit, for every n > 0 reading back gives at most n and more than half of it, short of n by less than the unit, and prints the same again. |
| FileSize.WholeUnitsAreShown | src/file_size_unit.cxx:71-87 | With the intended unit, every whole number of a unit that does not reach the next unit is shown as that number and unit. |
| LoggerConfig.NoOptionIsMissing | src/config_setup.cpp:99-118 | No error message dereferences an absent option, because the defaults pass the checks. |
| LoggerConfig.DefaultsAreAccepted | src/config_setup.cpp:80-131 | Without a logger section, or with one that names only a base path, and with its directory made, the configuration is accepted with 52428800 bytes, 5 files and the path given or `logs/svchostify.log`. |
| LoggerConfig.AcceptedIff | src/config_setup.cpp:80-131 | For every number below 2^64 and every unit as configured size, what is reported or accepted: in order, an empty base path, a directory that cannot be made, a number that is not one of those accepted for its unit modulo its period (with both bounds shown as "0 TiB"), a count of files outside 1 to 32; otherwise it is accepted with the 64-bit product as size. |
| LoggerConfig.BoundsAreNotShown | src/config_setup.cpp:107-111 | Both bounds in the size message read "0 TiB"; with the intended unit they would read "1 KiB" and "2 GiB". |
| LoggerConfig.Wrapped | src/file_size_unit.cxx:64 | A 64-bit product of a number and a unit is that of the number modulo the count of units in 2^64. |
| LoggerConfig.AcceptedSizes | src/config_setup.cpp:37-111 | For every number below 2^64 and every unit, the check accepts exactly: none 1024..2^31; KiB modulo 2^54 in 1..2^21; MiB modulo 2^44 in 1..2^11; GiB modulo 2^34 in {1, 2}; TiB never. |
| LoggerConfig.PassesWronglyIff | src/config_setup.cpp:99-111 | Everything meant to pass passes, and something else passes exactly if the product overflows into the range. |
| LoggerConfig.SixteenExbibytesPass | src/config_setup.cpp:99-111 | The sizes of 16 EiB and 1 KiB, and its like, given in KiB, pass and should not. |
| ExecutableWorker.Kernel.Close | src/workers/executable_service_worker.cpp:43 | Resetting an owning handle closes what it held, once. |
| ExecutableWorker.Executable.Move | src/workers/executable_service_worker.cpp:58 | Move construction transfers the contents and leaves the source empty. |
| ExecutableWorker.Executable.OnStart | src/workers/executable_service_worker.cpp:70-82 | A created child's handles replace, and close, those held before; otherwise it throws and nothing changes. |
| ExecutableWorker.Executable.OnStop | src/workers/executable_service_worker.cpp:84-92 | A child is sent a quit message or terminated, as configured; without one nothing happens. |
| ExecutableWorker.Executable.Run | src/workers/executable_service_worker.cpp:94-101 | When the wait is over both handles are closed and the worker is empty. |
| ExecutableWorker.Executable.MoveAssign | src/workers/executable_service_worker.cpp:64 | Assignment closes the target's handles without stopping its child, transfers the source's contents, and does nothing on itself. |
| ExecutableWorker.Executable.Destroy | src/workers/executable_service_worker.cpp:60-62 | The child is stopped and both handles are closed. |
| ExecutableWorker.InvStep | src/workers/executable_service_worker.cpp:58-101 | Every operation on any number of workers keeps the ownership invariant. |
| ExecutableWorker.HandlesAreConserved | src/workers/executable_service_worker.cpp:58-101 | After any sequence of operations each handle ever returned is owned by exactly one worker or was closed exactly once; when all workers are gone each was closed exactly once. |
| ExecutableWorker.MovedFromIsInert | src/workers/executable_service_worker.cpp:58-62 | Destroying a moved-from worker makes no call, closes nothing and ends no process. |
| ExecutableHistory.CallsAreMade | src/workers/executable_service_worker.cpp:58-92 | Over any run a call is made exactly at each stop or destruction of a worker that minds a child: a quit message to the child's thread if the worker was created to post one, its moves followed back, and the termination of its process otherwise; the handle is owned by that worker and was never closed. |
| ExecutableHistory.HistoryIsTold | src/workers/executable_service_worker.cpp:58-101 | After any run, the calls, the handles closed and their order, the children alive, and handles and setting of every worker are those that the sequence of operations alone determines. |
| ExecutableHistory.HandlesFollowMinding | src/workers/executable_service_worker.cpp:58-101 | The handles of a child are open if and only if, by the operations alone, some worker minds it; otherwise each was closed once. |
| ExecutableWorker.OrphanStep | src/workers/executable_service_worker.cpp:58-101 | An operation leaves a live child without an owner if and only if it starts or assigns over a worker with a live child, or destroys one whose child is only sent a message or cannot be terminated. |
| ExecutableWorker.NeverOrphansIff | src/workers/executable_service_worker.cpp:58-101 | Over a whole run no child is ever without an owner if and only if no operation is of that kind. |
| ExecutableWorker.OneStartOrphansIff | src/workers/executable_service_worker.cpp:58-101 | With at most one start and terminating destructors that succeed, no child is ever without an owner if and only if no assignment overwrites a worker that minds a live child; then none is alive once all workers are gone. |
| ExecutableWorker.SecondStartOrphans | src/workers/executable_service_worker.cpp:70-82 | Two starts in a row leave the first child without an owner. |
| ExecutableWorker.OverwritingOrphans | src/workers/executable_service_worker.cpp:64 | Moving an empty worker onto one with a live child leaves the child without an owner. |

## Left out

- Workers for the JVM, COM and plain C libraries: foreign calls; the lifecycle treats a worker as three calls that may return or throw.
- JSON, MessagePack, base64, text conversion and option parsing: they live in the library the program is built on, which is not part of this model.
- Console redirection, logging sinks, standard-stream watchers, `DllMain`, DLL directories and file-system checks: plumbing without logic of its own.
- The one-character view of a by-value parameter at src/util.cpp:139 is taken to mean the one-character string.
- Undocumented behaviour of `CommandLineToArgvW` for doubled quotes inside a quoted stretch.
- Embedded NULs in a command line: a NUL is an ordinary character of the printer and splitter here, while a character pointer would end there.
- Memory-model effects below single assignments, exceptions other than `std::exception`, and undefined behaviour: intended value semantics are modelled, and a missing number that is dereferenced is an outcome of its own (`Undefined`).
- ServiceProcess.Impl.ServiceMain: executes the dispatcher's service thread in line, since the host waits for it; a STOP, the callback and every other interleaving are in the step system of module Lifecycle.
- ServiceProcess.Impl.RunBusiness: models the call of `run` and its outcome; the thread, the promise and the callback are in module Lifecycle.
- CommandLine.Escape: the quote substitution, a range pipeline in the source, is the function `Substituted`; the loop-free appends around it are the method's.
- ExecutableWorker.Executable.Run: starts at the end of the wait; the wait itself is the enabling condition `CanRun` of the step system.
- ExecutableWorker.InvStep: operations are atomic steps; `on_stop` that races with the reset at the end of `run` is not modelled.
- LoggerConfig.AcceptedIff: whether the log directory can be created is a parameter, since file-system checks are outside the model.
- The check of the executable path in the executable worker's constructor: it throws before the object exists and owns anything.
- The account name, display name and service type passed to `CreateServiceW`: they do not reach the modelled state.
- A handle leak or reuse inside the service control manager, and services marked for deletion that linger: deletion is immediate here.
- `get_registry` for values other than multi-strings, and the query `installed`: they return what was stored.
- Java and C# samples: the stop flag of the C++ sample again.
