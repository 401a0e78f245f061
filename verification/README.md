# Verified model of distil-proxy

A Dafny model of the stateful core of the distil-proxy daemon, with proofs of what its protocols
keep. `dafny verify dfyconfig.toml` checks everything.

| module | models |
|---|---|
| `Text` | strings, 64-bit wrap-around, and the `strings`/`strconv` functions the code rests on |
| `Version` | the version order of the upgrader and of the upgrade command |
| `FileSystem` | the files of an installation, one atomic operation and its fault at a time |
| `Upgrade` | the upgrade manager as programs of file operations |
| `UpgradeSafety` | the installed binary and its backup, over every run of calls with crashes anywhere |
| `UpgradeReports` | what the upgrade calls answer and leave, by the record, the release and the bytes |
| `UpgradeHistory` | what upgrade.json remembers of a run |
| `UpgradeProgress` | versions, over every run of processes started from the installed binary |
| `Metrics`, `Jobs`, `Backoff` | counters and histogram, in-flight jobs, reconnect delays |
| `Client` | reconnect loop, message loop and job handler against any script of server, network and fetcher |
| `Session` | one session as two goroutines, every interleaving |
| `Publishing` | the goroutines that write status.json, every interleaving |
| `Lifecycle` | start, stop, restart and status against the daemons' own steps, every interleaving |
| `Polling` | the two polling loops |
| `LogTail` | the ring-buffer log tail |
| `CommandLine` | the recogniser that decides who owns a pid |
| `Config` | the configuration record and its file |

**How faults work.** Each file operation takes a fault: it works, fails with a cause, or the process
dies at it; a write can be cut anywhere. A call takes one fault per operation, so quantifying over the
faults covers a crash between any two operations. The `After...` functions say what a call does to the
disk; the class methods are the calls in the source's own imperative form, proved equal to them; the
lemmas are about runs of those functions. Concurrent code is a state machine whose steps are the
atomic actions of each goroutine or process, and a run is any sequence of enabled steps. The
specification functions and the machines are in turn pinned by lemmas that do not mention their
branches: what an answer, a frame, a stored field or a counter is, in terms of the inputs.

**Where the code falls short of what one might expect,** each with the exact condition:

- A check can lower the installed version if and only if the version its process works with is below
  the installed one, where a version that does not parse counts as below every one that does
  (`UpgradeProgress.LoweredIffStale`, `TickLowersIff`); without such a check and without a rollback
  it never does, over any run of daemons and upgrade commands (`VersionsNeverDecrease`). The code
  comes to such a check in three ways, and in no other, with any rollbacks in the run
  (`OrderlyIsNeverStale`, and `OrderlyIsSteady` for `VersionsNeverDecrease`; `DowngradesHappen` shows
  the first two at an input):
  - `chmod` fails after the new binary is in place, and the old process goes on
    (`FailedChmodAllowsDowngrade`);
  - the upgrade command replaces the binary under a running daemon, which checks again before it is
    restarted (`CommandAllowsDowngrade`);
  - the upgrade command of a version above 0.0.0 that has more than three numbers, or a `v` behind
    blanks, takes itself for 0.0.0 (`CommandLowersIff`; for example 2.0.0.0,
    `CommandLowersFourNumbers`). It also installs its own release again at every call
    (`CommandReappliesIff`).
- Ties in the version order carry over through a version exactly when it parses: one that does not is
  tied with everything (`Version.TiesCarryOverIff`).
- Command and daemon find the same releases newer, for a version that parses, if and only if it has at
  most three numbers and no blanks in front of a `v`, or is worth 0.0.0; for one that does not parse, if
  and only if what the command makes of it is the highest version there can be
  (`Version.CommandAgreesIff`). So they differ on the default version `dev`: it is 0.0.0 to the command,
  while to the daemon no release is newer (`Version.DevelopmentBuild`). They take the same decision
  altogether, repairs of the installed bytes included, if and only if the command reads the version
  as the daemon does or the version is 0.0.0 in normal form (`UpgradeProgress.CommandDecidesIff`).
- The wait follows the capped power of two exactly when both settings are at most half of the 64-bit
  range; otherwise the doubling overflows and a wait is negative (`Backoff.ClosedFormIff`). The count
  restarts only after a clean session, not after a long one that ends in an error.
- The wait for the reconnect is certain to notice a lasting connection if and only if it is there from
  the start of the wait, or begins early enough before the deadline to leave room for the time
  between a look and the reading of the clock (`Polling.NothingMissedIff`).
- A serving daemon's pid is missing from the pid file if and only if a `Start` that could not write
  status.json has removed the file and is about to kill that daemon, its child
  (`Lifecycle.SingleDaemon`); this state is reached (`Lifecycle.AbortedStartServes`).
- Counters in status.json can go back to zero: `Start` writes its own record through the same
  temporary file, after it has spawned the daemon and without the daemon's mutex. They never do,
  whatever follows, if and only if nothing counted has been published when `Start` writes
  (`Publishing.ParentWriteIsHarmlessIff`); for example before the first hook that counts
  (`BeforeCountingIsEarly`). A daemon that publishes a job first is a failing run
  (`CommandCanComeLate`, `ContentsCanGoBack`).
- A job's `Finish` goes by id: it drops its own entry if and only if no `CancelAll` and no other
  `Finish` of that id came since its `Start` (`Jobs.FinishDropsOwnIff`); otherwise it can drop the
  entry of a later job (`Jobs.LateFinishDropsSuccessor`). The message loop runs one job at a time, so
  there it never does.
- A read of the log file that fails inside a line is hidden by the buffered reader and ends the line
  there (`LogTail.HiddenFailure` is an input). The log tail always fails when a read fails at the start
  of a line or twice in a row inside one and, where no line fills the buffer, only then
  (`LogTail.ReadLogTail`).
- An explicit auto_upgrade false survives a run of the commands that write the configuration if and
  only if none of them is an `auth` with a good key whose load of the old file fails, for whatever
  reason, and whose save lands: it then starts from an empty record (`Config.OptOutSurvives`). An
  opt-out in a file without a key is such an input (`Config.FirstAuthLosesOptOut`).
- A record built in memory with auto_upgrade false, but not marked as set, is saved with true
  (`Config.ChoiceIsStoredIff`).
- Log lines are trimmed after the last n are taken, so fewer than n lines come out although there are
  n, or fewer than there are, if and only if the very last line is empty (`LogTail.TailIsShorterIff`).
- The repository's README.md (lines 9 and 53) speaks of `dk_` keys only; the code also accepts `dpk_`
  (`internal/config/config.go:151-160`). The model follows the code.

Besides the rows below, `Publishing.UpdatePublishes` and `FinalUpdateStops`, and `Lifecycle.StartServes`,
`StopClearsStale`, `StopClears`, `StopClearsBehind` and `ExitComparesFirst`, follow single undisturbed
paths, so that the machines are known to do what their invariants only restrict.

## Model

| member | source | states |
|---|---|---|
| UpgradeSafety.CrashSafety | internal/upgrade/manager.go:134-185 | from a binary without an upgrade record, over every run of startups, checks and shutdowns by processes of any versions, with a failure or crash at any file operation: the installed bytes are the original ones or hash to what a fetched release announced; with atomic renames they are always there; with the remove-then-rename fallback they can be missing only while the backup holds such bytes |
| UpgradeSafety.StepIsSafe | internal/upgrade/manager.go:369-379 | one call keeps the above, and a call that loses the binary (never a shutdown) leaves trusted bytes in the file it was about to put there: the download for a check, the backup for a startup |
| UpgradeSafety.RollbackRestores | internal/upgrade/manager.go:121-127 | after an upgrade replaced the binary, a startup that reports a rollback or changes the bytes at all, with any calls but no new backup commit in between, leaves exactly the replaced bytes installed and no backup; only one killed inside the fallback leaves them in the backup instead |
| UpgradeSafety.OnlyOldOrNew | internal/upgrade/manager.go:94-132 | until the next backup commit nothing but the new or the replaced bytes is ever installed, and if the binary is missing the replaced bytes are in the backup |
| UpgradeSafety.InterruptedUpgradeIsHarmless | internal/upgrade/manager.go:163-178 | an upgrade cut after its backup commit and before the rename never leads a later call to change the installed bytes, whatever versions are on record, given atomic renames and no new commit |
| UpgradeSafety.RollbacksNeedCommits | internal/upgrade/manager.go:121-127 | two startups that report a rollback, or change the installed bytes and are killed before they can, always have a backup commit between them |
| UpgradeSafety.CheckEffects | internal/upgrade/manager.go:134-185 | before the backup commit a check leaves binary and record alone; after it the backup is the binary that was found, and the binary is that one, a download matching the release, or (fallback) missing with such a download pending |
| UpgradeSafety.StartupEffects | internal/upgrade/manager.go:94-132 | a startup leaves the binary alone or moves the backup over it, says so truthfully, and does nothing without a record |
| UpgradeSafety.BackupOnlyLeaves | internal/upgrade/manager.go:115-131 | without a commit no run of calls changes the backup's bytes; it can only disappear |
| UpgradeHistory.RollbackIsJustified | internal/upgrade/manager.go:108-127 | from a disk without an unclean record: a startup that reports a rollback, or changes the installed bytes and is killed before it can, is preceded by a completed startup of the same version, less than the window ago by its clock, with no completed clean shutdown of that version since |
| UpgradeHistory.RecordsAreExplained | internal/upgrade/manager.go:261-280 | in every run an unclean record names a startup of that run and the moment of it, with no completed clean shutdown of its version after it |
| UpgradeHistory.TwoStartupsForget | internal/upgrade/manager.go:94-132 | when file operations succeed, a second completed startup leaves no upgrade record, whatever versions the two run and whatever shutdowns and checks without a commit lie between |
| UpgradeProgress.VersionsNeverDecrease | internal/upgrade/manager.go:187-202 | over every run of daemons and upgrade commands with honest releases, no rollback and no check by a process whose version is below the installed one, with crashes and restarts anywhere: the installed version at any moment is not below that at any earlier one |
| UpgradeProgress.OrderlyIsNeverStale | internal/cli/commands_upgrade.go:57-90 | in every run, rollbacks included, such a check can only come from a failed chmod, from a command that replaces the binary under a running daemon, or from a command that understates its version |
| UpgradeProgress.DowngradesHappen | internal/upgrade/manager.go:176-181 | a failed chmod and a command that leave a daemon of version 1 running under a binary of version 2 exist |
| UpgradeProgress.TickLowersIff | internal/upgrade/manager.go:187-202 | at every moment, some honest endpoint makes the running daemon lower the installed version if and only if its own is below it |
| UpgradeProgress.CommandLowersIff | internal/cli/commands_upgrade.go:57-68 | the upgrade command of an installed binary can lower the installed version, in some world of honest releases, if and only if its version is above 0.0.0 and has more than three numbers or a v behind blanks |
| UpgradeProgress.CommandLowersFourNumbers | internal/cli/commands_upgrade.go:99-114 | it can for the version 2.0.0.0 |
| UpgradeProgress.CommandReappliesIff | internal/cli/commands_upgrade.go:57-68 | the command of an installed, published binary installs that binary again if and only if it understates its version |
| UpgradeProgress.CommandDecidesIff | internal/cli/commands_upgrade.go:99-114 | command and daemon take the same decision on every release, disk and read fault if and only if the command reads the version alike or the version is 0.0.0 in normal form |
| UpgradeProgress.CommandAllowsDowngrade | internal/cli/commands_upgrade.go:57-90 | after a command has put a higher release under a running daemon, an honest release makes that daemon lower the version |
| UpgradeProgress.LoweredIffStale | internal/upgrade/manager.go:134-202 | whatever version a process works with, if it has a publishable binary: some honest endpoint makes the process lower the installed version if and only if the version is below the installed one |
| UpgradeProgress.PublishedLowersIff | internal/upgrade/manager.go:134-202 | when nothing fails, a published binary lowers the installed version if and only if the process wants it and it is below what is installed |
| UpgradeProgress.FailedChmodAllowsDowngrade | internal/upgrade/manager.go:179-181 | after a higher release was put in place and chmod failed, an honest release makes the surviving process lower the version |
| UpgradeProgress.PublishedIsInstalledIff | internal/upgrade/manager.go:134-202 | when nothing fails, a published binary is reported if and only if it is newer than the process, or of its version but not the installed bytes; it is installed if and only if upgrades are also enabled; otherwise the disk is untouched |
| UpgradeProgress.SecondStartupDecides | internal/upgrade/manager.go:94-132 | when nothing fails, upgrade, first startup, optional clean stop, second startup: the old bytes come back if and only if there was no stop and the second startup came within the window; record and backup are gone either way |
| UpgradeProgress.SameReleaseAppliesNothing | internal/upgrade/manager.go:187-202 | a process that works with the version of an applied upgrade and is offered the same release changes no file and reports nothing |
| UpgradeProgress.InstalledVersion | internal/upgrade/manager.go:159-178 | what a check installs has the release's version, which is above the process's own or equal to it |
| UpgradeProgress.UpgradeTakesEffect | internal/daemon/service.go:303-329 | a daemon that finds a wanted release ends, and the next boot runs its bytes |
| UpgradeProgress.RollbackTakesEffect | internal/daemon/service.go:220-234 | a daemon that comes back too soon ends, and the next boot runs the old bytes |
| Upgrade.Manager.constructor | internal/upgrade/manager.go:65-88 | a rollback window that is not positive becomes ten seconds; nothing else of the modelled settings changes |
| Upgrade.Manager.HandleStartup | internal/upgrade/manager.go:94-132 | disk and result for every combination of faults are those of the specification `AfterStartup` the lemmas about startups are about |
| UpgradeReports.StartupWithoutRecord | internal/upgrade/manager.go:95-99 | without an upgrade record a startup changes nothing and is neither a rollback nor an error |
| UpgradeReports.StartupReports | internal/upgrade/manager.go:94-132 | when reading, saving and the rename work, a startup is an error if and only if the record is garbled or a rollback is due without a backup, and otherwise says whether a rollback was due; that record or backup could not be removed is never an error |
| UpgradeReports.StartupLeaves | internal/upgrade/manager.go:103-131 | what every kind of record leads to on the disk when nothing fails |
| Upgrade.Manager.MarkCleanShutdown | internal/upgrade/manager.go:261-280 | the same for `AfterShutdown` |
| UpgradeReports.ShutdownReports | internal/upgrade/manager.go:261-280 | when reading and saving work, a shutdown is an error if and only if the record is garbled; it marks exactly a record that says this version has started and not stopped |
| UpgradeReports.ShutdownWithoutRecord | internal/upgrade/manager.go:262-266 | without a record it succeeds and changes nothing |
| Upgrade.Manager.CheckAndUpgrade | internal/upgrade/manager.go:134-185 | the same for `AfterCheck`: disk, result and error after every prefix of its file operations |
| UpgradeReports.CheckReports | internal/upgrade/manager.go:134-185 | for every world, disk and fault: no error if and only if the release is valid and not needed, or upgrades are disabled, or it was applied; the release is named if and only if it is needed; with upgrades disabled nothing is touched |
| UpgradeReports.MismatchIsError | internal/upgrade/manager.go:155-161 | a complete download of other bytes than the release announces is an error, with nothing installed, backed up or recorded |
| UpgradeReports.NeededIff | internal/upgrade/manager.go:187-202 | needed if and only if newer, or of this version over bytes that do not match; an error if and only if these bytes are wanted and cannot be read |
| UpgradeReports.ChecksumSpelling | internal/upgrade/manager.go:159 | blanks around the announced checksum and the case of its letters do not matter, every other difference does |
| UpgradeReports.ValidReleaseIff | internal/upgrade/manager.go:230-232 | a payload is refused if and only if one of its fields is blank |
| Upgrade.Manager.CheckNeedsUpgrade | internal/upgrade/manager.go:187-202 | a newer release, or the same version over bytes that do not match it, is needed; a read failure is an error |
| Upgrade.Manager.ReplaceFile | internal/upgrade/manager.go:369-390 | rename, with the remove-then-rename fallback on the listed causes only |
| Upgrade.AfterReplace | internal/upgrade/manager.go:369-390 | done if and only if the first rename works, or it fails for one of the five causes, the target can be put out of the way and the second works; done moves the file exactly, and any other end leaves the disk as it was, or (fallback only) lacks just the target |
| Upgrade.AfterSaveState | internal/upgrade/manager.go:248-259 | success stores the record; any other end leaves the old record or none, never a torn one; no other file but the temporary one changes |
| Upgrade.Manager.DownloadToFile | internal/upgrade/manager.go:318-345 | the pending file is filled through its temporary file, cut anywhere |
| Upgrade.AfterCopy | internal/upgrade/manager.go:347-367 | success makes the backup equal to the installed binary; any other end leaves the old backup, or none after the fallback |
| Version.IsNewerVersion | internal/upgrade/version.go:8-31 | the loop decides exactly the lexicographic order of the first three components, padded with zeros, and is false when either version does not parse |
| Version.ParseVersion | internal/upgrade/version.go:39-50 | all the numbers between the dots, or nothing when one is not a 64-bit integer |
| Version.NewerIsStrictWeakOrder | internal/upgrade/version.go:8-31 | irreflexive, asymmetric, transitive, and being tied is transitive through versions that parse |
| Version.NewerOfTexts | internal/upgrade/version.go:8-50 | on versions as written, three numbers compare from the left, with any blanks and a v around |
| Version.OtherLengths | internal/upgrade/version.go:15-22 | numbers that are not there count as zero and those behind the third do not count |
| Version.NormalOfText | internal/upgrade/version.go:33-37 | blanks go from both ends and then one leading v, and no more |
| Version.AtoiOfText | internal/upgrade/version.go:43-46 | decimal numbers, with or without a sign, are read as what they are exactly within 64 bits |
| Version.AtoiOfOther | internal/upgrade/version.go:43-46 | nothing else is a number |
| Version.TiesCarryOverIff | internal/upgrade/version.go:11-13 | ties carry over through a version if and only if it parses |
| Version.NormalOfNumbers | internal/upgrade/version.go:33-37 | numbers between dots are their own normal form |
| Version.CommandVersionParses | internal/cli/commands_upgrade.go:99-114 | whatever the build says, the command's version parses and has one to three numbers |
| Version.CommandAgreesIff | internal/cli/commands_upgrade.go:99-114 | for every version: command and daemon find the same releases newer if and only if the version parses and is understood by the command or worth 0.0.0, or does not parse and becomes the highest version there can be |
| Version.CommandVersionOf | internal/cli/commands_upgrade.go:99-114 | a version that parses becomes its normal form if the command understands it and 0.0.0 otherwise |
| Version.CommandVersionOfText | internal/cli/commands_upgrade.go:99-114 | the command takes one to three numbers out of any blanks, also behind a leading v |
| Version.DevelopmentBuild | internal/version/version.go:6 | the default version is 0.0.0 to the command, so release 1 is newer, and to the daemon no release is newer |
| Version.UnderstatedIff | internal/cli/commands_upgrade.go:99-114 | what the command makes of a version is below it if and only if it is above 0.0.0 and has more than three numbers or a v behind blanks |
| Version.SomethingIsNewerIff | internal/upgrade/version.go:8-31 | a version that parses has a release above it if and only if one of its three numbers is below the 64-bit maximum |
| Version.LowerIsStrictWeakOrder | internal/upgrade/version.go:8-31 | with versions that do not parse below all others, the order is a strict weak order on all versions |
| Metrics.MetricsObject.RecordJob | internal/observability/metrics.go:48-67 | the new value of all counters, with 64-bit wrap-around |
| Metrics.MetricsObject.TakeSnapshot | internal/observability/metrics.go:70-90 | the published view of the counters, the average truncated toward zero |
| Metrics.QuotientTruncates | internal/observability/metrics.go:74-77 | the average truncates toward zero |
| Metrics.CountersCount | internal/observability/metrics.go:48-67 | for every history of at most 2^63-1 jobs, whatever the latencies: successes and failures are counted, and each bucket holds the successes in its range |
| Metrics.TotalIsSum | internal/observability/metrics.go:48-67 | for latencies that are not negative and whose sum fits in 64 bits, the total is their sum |
| Metrics.HistogramIsConsistent | internal/observability/metrics.go:48-90 | the buckets partition the successes, the average is the floor of the true mean, the buckets' lower ends bound the total, and an empty top bucket means an average of at most 1000 |
| Jobs.Registry.Start | internal/jobs/registry.go:29-37 | refuses exactly the ids that are active and then keeps the entry that is there |
| Jobs.Registry.Finish | internal/jobs/registry.go:40-44 | drops the one entry and calls nothing |
| Jobs.Registry.ActiveCount | internal/jobs/registry.go:47-51 | the number of active jobs |
| Jobs.Registry.CancelAll | internal/jobs/registry.go:54-63 | calls every cancel function once for each job that holds it, in any order, and empties the registry |
| Jobs.TokensAreConserved | internal/jobs/registry.go:29-63 | over any interleaving of calls, a cancel function was accepted as often as it is active, finished and cancelled together |
| Jobs.EachTokenHasOneOwner | internal/jobs/registry.go:29-63 | one offered once and accepted is in exactly one of three places: one active job, finished, or called once |
| Jobs.NoLateCancel | internal/jobs/registry.go:40-63 | one that is no longer active and not offered again is never called later |
| Jobs.FinishDropsOwnIff | internal/jobs/registry.go:29-63 | after any further calls, `Finish` drops the entry that an accepted `Start` made if and only if no `CancelAll` and no other `Finish` of that id came between |
| Jobs.LateFinishDropsSuccessor | internal/jobs/registry.go:40-63 | a job that finishes after `CancelAll` and a new job of its id drops that job's cancel function |
| Backoff.ClosedFormIff | internal/ws/client.go:98-129 | for every history of sessions the wait is Initial after the first failure in a row and min(Initial·2^(j-1), Max) after the j-th, if and only if both settings are at most half of the largest 64-bit integer |
| Backoff.WaitsOfAt | internal/ws/client.go:115-122 | each delay of a run depends on the sessions up to it and not on later ones |
| Client.JobsAreConserved | internal/ws/client.go:208-304 | for every script of at most 2^63-1 jobs: published successes, errors and sessions ended by a failed reply add up to the fetch messages handled; the successes are the results delivered, and so is their total latency unless it overflows; replies are attempted once each, in order |
| Client.SessionsKeepBalance | internal/ws/client.go:95-131 | over any number of sessions: one job lost for each that ended in the failure to write a reply, and every failed session announced once |
| Client.TurnsKeepBalance | internal/ws/client.go:163-186 | a session handles the fetch messages in the order they come, all of them unless a message makes it fail, and loses a job exactly when it ends in the failure to write that job's reply |
| Client.MessageKeepsBalance | internal/ws/client.go:208-304 | each message keeps the balance, and brings at most its own id to the handler |
| Client.ClientObject.NewClient | internal/ws/client.go:59-92 | refused if and only if the server is empty or the key is not a dk_ or dpk_ key with something behind the prefix; otherwise delays that are not positive get their defaults and the others are kept |
| Client.ClientObject.HandleFetch | internal/ws/client.go:235-304 | one reply attempt and at most one job hook, as specified; the registry's entries are as they were found, and nothing is cancelled by it |
| Client.FetchIsAnswered | internal/ws/client.go:235-318 | one frame for each fetch: a result, with the fetcher's time, if and only if the id is free, the body is empty or decodes, and the fetcher responded; otherwise the error whose code says what failed |
| Client.FetchIsCounted | internal/ws/client.go:252-303 | the job counted for it, or none and a failed session if and only if the reply could not be written and was not the one to an unusable body |
| Client.OtherMessages | internal/ws/client.go:208-233 | a ping is answered by a pong, a pong is a heartbeat, nonsense ends the session, unknown types are ignored |
| Client.ClientObject.HandleMessage | internal/ws/client.go:208-233 | log and error for every message and every outcome of fetch and write |
| Client.ClientObject.RunSession | internal/ws/client.go:133-187 | the message loop equals the recursive specification, for every script |
| Client.SessionFailsIff | internal/ws/client.go:163-186 | a session fails if and only if some turn ends it in error and none before it ends it at all |
| Client.CloseErrorIff | internal/ws/client.go:358-364 | closed in good order are exactly the statuses 1000 and 1001 and a cancelled context |
| Client.ClientObject.Run | internal/ws/client.go:95-131 | log, announced reconnects and every timer delay of a whole run, with the metrics equal to the hooks fired, each job still registered cancelled once, and the registry empty at the end |
| Client.RunIsAccounted | internal/ws/client.go:95-131 | over a whole run: which sessions count as failed, how many connections are counted, and that every failed session but one cut by the cancelled context is announced |
| Session.RepliesAreOrdered | internal/ws/client.go:189-331 | over every interleaving with the heartbeat: frames never overlap on the wire, no goroutine begins one after a failure it does not tolerate, and the answers begun, with the one about to begin, are those the messages read ask for, replies to fetches and pongs to pings, in order, once each |
| Session.PingsFollowTicks | internal/ws/client.go:189-206 | in every run the heartbeat attempts one ping for each tick it takes |
| Session.ResultIsExplained | internal/ws/client.go:163-186 | in every run the loop is over with a result if and only if some step ended it so: in good order without an error, by any failure that matters with one |
| Session.FailedWriteEndsSession | internal/ws/client.go:183-206 | over every interleaving: a reply or pong that cannot be written (the answer to a bad body apart) makes the session end with an error, and a ping that cannot be written ends the heartbeat |
| Session.PostNeverBlocks | internal/ws/client.go:189-206 | the heartbeat sends at most one error and the channel has room for it |
| Session.TeardownNeverBlocks | internal/ws/client.go:151-161 | once the reader waits, the heartbeat can take a step or has finished and the session can return |
| Session.TeardownTerminates | internal/ws/client.go:151-206 | from then on, whatever the interleaving, the heartbeat takes at most 11 steps, plus 6 for each further tick; when it can take none the session can return or has |
| Session.TeardownIsBounded | internal/ws/client.go:189-206 | once the context is cancelled, if a write with a cancelled context fails, the heartbeat takes at most 5 more steps, whatever the interleaving and however many ticks come |
| Session.RunKeepsInvariant | internal/ws/client.go:133-206 | mutex ownership, framing, reply order and channel occupancy in every reachable state |
| Publishing.PublishedNeverDecreases | internal/daemon/service.go:194-216 | over every interleaving of hooks, ticker, upgrader and the `Start` command with any write failing, for as many steps as a 64-bit counter can count, in which nothing counted has been published when the command writes: successive contents of status.json never decrease in any counter |
| Publishing.ParentWriteIsHarmlessIff | internal/daemon/service.go:123-137 | at the moment of the command's write, every continuation keeps the contents from going back if and only if nothing counted has been published |
| Publishing.BeforeCountingIsEarly | internal/daemon/service.go:243-274 | that is so when the command writes before the first hook that counts |
| Publishing.ContentsCanGoBack | internal/daemon/service.go:114-137 | there is a run in which the contents go back |
| Publishing.PublishedIsCoherent | internal/daemon/service.go:194-216 | over every interleaving, the command's write included, each content has JobsServed = JobsSuccess = sum of its buckets |
| Publishing.MemoryMatchesMetrics | internal/daemon/service.go:243-274 | whenever no hook is under way, and for good once the client has returned, the record in memory has the counters of the metrics |
| Publishing.MetricsAreHooks | internal/daemon/service.go:243-263 | in every run the metrics are the hooks fired: connections and reconnects announced, each in its own counter, and the jobs reported |
| Publishing.HookPublishes | internal/daemon/service.go:243-269 | what a hook publishes when nothing disturbs it: its counts, and its state if it announces one |
| Publishing.OthersPublish | internal/daemon/service.go:281-315 | the same for ticker and upgrader |
| Publishing.LastRecordIsFinal | internal/daemon/service.go:324-349 | whatever any goroutine publishes after the client has returned has the final counters, the unjoined upgrader included, provided the `Start` command has finished or there is none |
| Lifecycle.SingleDaemon | internal/daemon/service.go:87-162 | from no daemon and any pid file, over every interleaving of non-overlapping commands with daemon steps, kills and re-executions: at most one daemon has not given up the pid file, and the pid of a serving one is missing from it if and only if a `Start` whose status write failed has removed the file and is about to kill it |
| Lifecycle.AbortedStartServes | internal/daemon/service.go:114-137 | a run reaches the state in which a serving daemon has no pid file |
| Lifecycle.RestartServes | internal/daemon/service.go:468-473 | a restart by itself, over any stale pid file or a serving daemon, can end with a new daemon serving and recorded |
| Lifecycle.RestartGoesOn | internal/daemon/service.go:468-473 | in every run, a restart whose stop has ended well is on its way to launch a daemon or has come to it, whatever the old daemons still do |
| Lifecycle.CommandsGiveUp | internal/daemon/service.go:92-94 | a start beside a serving daemon, a stop that times out and a look at a serving daemon end and leave everything as it was |
| Lifecycle.ExitKeepsSuccessor | internal/daemon/service.go:794-806 | over the same runs an exiting daemon removes its own pid from the file or nothing, and never even finds another's pid there |
| Lifecycle.LaunchIsAlone | internal/daemon/service.go:522-537 | only a launch makes a process active, and none is active then |
| Polling.Host.Stop | internal/daemon/service.go:414-465 | signals only a pid that was read and passed both lookups, at most once; success or not running implies no pid file; the outcome is that of the first poll that finds the daemon gone or is late, whether or not the daemon removes the file itself meanwhile; at most timeout/poll + 2 polls |
| Polling.Host.PollUntilGone | internal/daemon/service.go:449-462 | ends at the first poll that finds the daemon gone or is followed by a late reading, within the bound |
| Polling.WaitForDaemonConnected | internal/cli/commands_upgrade.go:145-174 | ends at the first look that is connected or followed by the deadline, within the bound, and reports the last state and the last error seen |
| Polling.LastStateIs | internal/cli/commands_upgrade.go:151-158 | the state reported is that of the last look that got a status |
| Polling.LastErrorIs | internal/cli/commands_upgrade.go:151-162 | the error reported is that of the last look that told of one |
| Polling.NothingMissed | internal/cli/commands_upgrade.go:150-168 | a connection that lasts from the start of the wait, or from at least the lag before the deadline, is noticed |
| Polling.NothingMissedIff | internal/cli/commands_upgrade.go:150-168 | and for every lag and timeout no other connection is certain to be |
| LogTail.ReadLogTail | internal/daemon/service.go:843-898 | for every content, every n, every way the reader cuts long lines and every pattern of failing reads: the last n lines with trailing empty ones trimmed, where a failed read that the reader hides ends a line; an error whenever a read fails at the start of a line or twice in a row inside one, and, where no line fills the buffer, only then |
| LogTail.HiddenFailure | internal/daemon/service.go:856-864 | one failing read inside the content "ab" makes it the lines "a" and "b", without an error |
| LogTail.LinesComeBack | internal/daemon/service.go:856-877 | without failing reads, lines that were written, each ended by a newline or by a carriage return and a newline, and perhaps a last one without an end, are read as they were written |
| LogTail.TailIsShorterIff | internal/daemon/service.go:884-897 | fewer lines than n, or than there are, come out if and only if the very last line is empty |
| LogTail.TrimIsMaximal | internal/daemon/service.go:900-905 | trimming removes only empty lines and stops at one that is not |
| LogTail.PutLine | internal/daemon/service.go:866-871 | one more line in the ring keeps the last n, however often it has wrapped |
| LogTail.Unroll | internal/daemon/service.go:888-896 | the ring is copied out in the order the lines came |
| LogTail.LineReader.ReadLine | internal/daemon/service.go:856-864 | what one piece says about the content, carriage returns and hidden read failures included, and exactly when there is an error |
| CommandLine.CommandMatchesExecutable | internal/daemon/service.go:567-592 | true exactly when some candidate, as it is or resolved against the expected path, names the expected file |
| CommandLine.LaunchedPathIsAccepted | internal/daemon/service.go:581-601 | a daemon launched under a plain path is recognised if and only if the path, or, where it is relative, what it resolves to, names the expected file |
| CommandLine.StartedDaemonsAreRecognised | internal/daemon/service.go:630-722 | every plain path, bare or in either quotes, is the one candidate of the three command lines a daemon runs under |
| CommandLine.RecognisedIffPlain | internal/daemon/service.go:630-658 | a path is its own candidate if and only if it is not empty, has no blanks at its ends and is not itself in quotes |
| CommandLine.AcceptedLinesAreLaunches | internal/daemon/service.go:574-685 | there is at most one candidate, and then the line ends in one of the argument lists and the candidate is the path in front of it |
| CommandLine.QuotedExecutablePath | internal/daemon/service.go:687-711 | the scanning loop equals its recursive form |
| CommandLine.QuotingRoundTrip | internal/daemon/service.go:687-711 | the scan undoes backslash-escaping of quotes and backslashes for every path and whatever follows; single quotes keep a path without them |
| CommandLine.UnterminatedIsNothing | internal/daemon/service.go:710 | without a closing quote there is no path |
| Config.Object.ApplyDefaults | internal/config/config.go:96-112 | the new value of the whole record |
| Config.ConfigFile.Load | internal/config/config.go:174-211 | every error and the defaulted, validated record |
| Config.LoadKeepsKeys | internal/config/config.go:174-211 | a load returns every key as the file gives it, and a default exactly for what is absent, blank or not positive |
| Config.LoadSucceedsIff | internal/config/config.go:115-139 | a load succeeds if and only if the file can be read and decoded and has a good key and no unknown log level; and which error the others are |
| Config.ConfigFile.Save | internal/config/config.go:214-242 | file and temporary file after a failure or crash at any step |
| Config.SaveSucceedsIff | internal/config/config.go:214-242 | a save succeeds if and only if the record has a good key and no unknown log level and no file operation fails |
| Config.SaveKeepsFields | internal/config/config.go:174-242 | a save followed by a load gives back every field of the saved record, defaults for what is blank or not positive, and no legacy key |
| Config.ValidAPIKeyIff | internal/config/config.go:151-160 | good keys are dk_ or dpk_ with something behind |
| Config.LogLevels | internal/config/config.go:141-148 | the five levels, in any case and between any blanks |
| Config.SaveThenLoad | internal/config/config.go:174-242 | a successful save followed by a load gives the defaulted record, legacy key cleared, auto_upgrade explicit |
| Config.LoadThenSaveIsFixed | internal/config/config.go:174-242 | from then on load and save is a fixed point, down to the bytes of the file |
| Config.SaveIsAtomic | internal/config/config.go:224-241 | a failure or crash at any step leaves the old file or the complete new one; an invalid record changes nothing |
| Config.OptOutSurvives | internal/cli/commands.go:300-326 | an explicit auto_upgrade false survives a run of the commands that write the configuration, whatever fails in them, if and only if none is an auth with a good key whose load fails and whose save lands |
| Config.RoundKeepsChoiceIff | internal/cli/commands.go:300-326 | after one such command the file says false if and only if it did before and the command is no such auth |
| Config.FirstAuthLosesOptOut | internal/cli/commands.go:311-326 | an auth over a file that holds only auto_upgrade false makes it true |
| Config.Command.SaveAuthKey | internal/cli/commands.go:300-326 | file and temporary file after the auth command, for every old file, key, email address and fault |
| Config.AuthKeepsRest | internal/cli/commands.go:311-326 | an auth over a file that loads stores the key and the address and leaves everything else as it was |
| Config.LookupKeepsRest | internal/cli/commands.go:468-481 | a lookup of a new address stores it and leaves everything else as it was |
| Config.SaveStoresChoice | internal/config/config.go:214-242 | a save that is accepted and lands stores the choice of the record, false only if it was marked as set; any other leaves the choice as it was |
| Config.ChoiceIsStoredIff | internal/config/config.go:106-108 | a choice of false is stored if and only if it was marked as set |

## Left out

- One manager call at a time. The upgrade command and the daemon work on the same paths without a lock, and the daemon's shutdown can call `MarkCleanShutdown` while its own unjoined `CheckAndUpgrade` is under way, both writing upgrade.json and its temporary file (`internal/daemon/service.go:295-304`, 336-337); no such overlap is modelled.
- A crash is the death of a process. Loss of power, and so the absence of any flush to disk, is not modelled.
- SHA-256, JSON and base64 are uninterpreted functions; where a round trip needs it, decoding is assumed to undo encoding (`Lossless`). Invalid UTF-8, which Go's encoder replaces, is therefore not modelled.
- Strings are sequences of characters, not bytes, and case folding is that of ASCII letters.
- HTTP, WebSocket and TLS transport, request headers and the endpoint's URL: the script of a run says what they answer.
- The fetch executor and job timeouts: any result or error may come back. Result bodies, headers and error messages are not part of frames.
- File modes, symbolic links and inode identity: `chmod` is an operation that can fail, and whether two paths name one file, or how a relative path resolves, is a parameter.
- Client: the hooks for errors and for the final `stopped` state change no counter and are not in the log; the heartbeat's pings are in `Session` only.
- Session.TeardownTerminates: counts the heartbeat's own steps and assumes that a cancelled write returns; real time is not modelled. `TeardownIsBounded` assumes besides that it returns an error.
- Session: replies to fetches run in the reader; the fetch itself takes no step of its own.
- Publishing: a write of the temporary file is one step, so two writers inside one write are not modelled, and a torn content that is published is not listed, since no reader can decode it. A `Start` that aborts kills the daemon; the model lets the daemon go on. `Stop` writes only when the daemon is gone, which is after the run; a re-executed daemon begins a new run, with zero counters over the old contents. Uptime, timestamps and the last error text are left out, as are their fields.
- Lifecycle.SingleDaemon: assumes commands that do not overlap and are not killed halfway, a pid file that can be read and is written whole, and process lookups that are true at the moment they are made.
- Lifecycle: a signal refused for lack of permission is not told apart from a stop whose deadline passes; both leave everything as it was.
- Lifecycle.StopClears: says that a stop can succeed; a daemon that ignores the signal is not stopped, and `Stop` then reports a timeout.
- Polling.Host.Stop: what each look sees and each clock reading are functions of the look's number; a sleep takes at least the polling interval, and writing the status mark is only counted.
- Config: unknown keys, trailing data and malformed JSON are one decoding error; state directories are one step that can fail.
- LogTail.ReadLogTail: failures belong to positions of the file, each so many times in a row; a log file that cannot be opened is not modelled.
- Status rendering, the command-line interface, account lookup, service-manager templates, logging, platform-specific process replacement, and the splitting of a command line that no ownership decision uses (`internal/daemon/service.go:616-628`).
