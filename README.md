# Discord installer: a verified model of its decision core

`discord_installer.py` is a Qt application that installs the Linux tarball of
Discord. It finds an archive in the downloads folder or downloads the latest
one. It checks that `pkexec` and 500 MiB of free space are available. It then
runs a generated bash script under `pkexec` that backs up `/opt/discord`,
unpacks the new tree, installs a menu entry and a `/usr/local/bin/discord`
symlink, and rolls back through an `ERR` trap when a command fails.

This project models, in Dafny, the parts of that program that make decisions
or change state. The network, the filesystem probes, Qt and the shell
commands are replaced by what they report:

| module | models |
|---|---|
| `VersionInfo` | the version extraction `re.search(r'discord-([0-9.]+)\.tar\.gz', url)`, with leftmost-start, greedy-with-backtracking semantics |
| `Download` | `DiscordDownloader`: the progress formula, the chunk loop writing the file and polling `should_cancel`, and `run`'s reporting; a class whose methods are proved against specification functions |
| `SystemUtils` | `get_installed_version` over the two install roots |
| `ProcessOutput` | `output.strip().split('\n')` with blank lines dropped, as the stdout/stderr handlers use it |
| `Installer` | `find_discord_tar`, `validate_installation_requirements`, and the `DiscordInstaller` object (`install`, `_on_process_finished`, `_on_timeout`, `_cleanup`, the output handlers) |
| `Transaction` | the bash template as a state machine over install dir, backup dir, temp dir, menu entry and symlink; the class `Host` runs it command by command and is proved equal to a table `Expected` that says what the state is just before each command |
| `Controller` | `DiscordInstallerUI`'s decision fields and handlers (scan, click, download and installation completion) |
| `Config` | the constants of class `Config` and the paths the script hard-codes |
| `Signals` | counting the signals of one kind (the completion signals of the downloader and of the installer) |

Behaviours of the code a reader might not expect:
- ties between archives with equal modification times go to the first file in
  listing order, because the sort is stable;
- the version token is not checked to be well formed (`discord-..tar.gz`
  yields `.`);
- without a content length there are no intermediate progress signals, only
  the milestones 5, 10, 95 and 100;
- the downloaded file's size is never compared with the content length;
- `run` emits no completion signal when the cancellation is seen before the
  download starts;
- it emits `CANCELLED` after a completed transfer and leaves the file on disk;
- a broken stream leaves the partial file;
- the installer can emit two completion signals (a timeout, then the killed
  process's exit);
- nothing in `install` guards against a second call while a process still
  runs: it rebinds `self.process` and arms a second timer, and the first
  timer can then kill the second process (the window disables the button
  when an installation starts, but a mode change rescans and can enable it
  again);
- the temporary script is created with mode 755;
- the replacement of `/opt/discord` is not atomic, and its rollback has the
  gaps listed below;
- scans have no busy guard, and a scan never disables the button.

## Model

| member | source | states |
|---|---|---|
| VersionInfo.LongestAt | discord_installer.py:125 | the capture the greedy group settles on at a start position is one for which the whole pattern matches there |
| VersionInfo.LongestAtIsLongest | discord_installer.py:125 | that capture is the longest one that matches at the position, and None means no capture matches there |
| VersionInfo.SearchFrom | discord_installer.py:125 | `re.search` from a position returns a start at or after it where the pattern matches with the returned capture |
| VersionInfo.SearchFromIsLeftmostLongest | discord_installer.py:125 | the returned start is the leftmost match, its capture the longest there, and None means the pattern matches nowhere from the position on |
| VersionInfo.ExtractVersion | discord_installer.py:125-134 | a detected version comes with the final URL, is non-empty and made only of digits and dots |
| VersionInfo.ExtractVersionSucceedsIffMatch | discord_installer.py:125-134 | a version is detected if and only if the pattern matches somewhere in the URL |
| VersionInfo.ExtractVersionIsLeftmostLongest | discord_installer.py:125-128 | the detected version is the capture of the leftmost match and the longest capture at that start |
| VersionInfo.EmbeddedTokenExtracted | discord_installer.py:125-131 | for a URL `pre + "discord-" + v + ".tar.gz"` with no earlier match, the detected version is exactly `v` |
| VersionInfo.MalformedTokenAccepted | discord_installer.py:125-131 | `discord-..tar.gz` is accepted with version `.` |
| Download.Percent | discord_installer.py:172-173 | the progress figure `10 + int(80 * downloaded / total_size)` for a positive content length; for non-negative operands the truncated quotient is integer division |
| Download.ChunkEvents | discord_installer.py:159-178 | the loop's progress signals: one per non-empty chunk, carrying the running byte count, and none when the content length is not positive |
| Download.PercentInBand | discord_installer.py:172-173 | with `downloaded <= total`, `10 + 80*downloaded/total` lies in [10, 90] |
| Download.PercentMonotone | discord_installer.py:173 | more bytes never give a smaller percentage |
| Download.ChunkProgressInBand | discord_installer.py:167-178 | when the body is no longer than the content length, every per-chunk progress signal lies in [10, 90] |
| Download.ChunkProgressMonotone | discord_installer.py:167-178 | the per-chunk percentages never decrease |
| Download.NoChunkProgressWithoutLength | discord_installer.py:156-178 | with no positive content length the loop emits no progress signal |
| Download.TransferEvents | discord_installer.py:150-180 | `download_discord`'s signals: the start at 10; the per-chunk signals up to the chunk whose check sees the flag; "Verificando archivo..." at 95 only after a stream that ended without cancellation or error; nothing after the start when the request fails |
| Download.TransferFiles | discord_installer.py:147-168 | a failed request leaves the directory as it was; a cancellation seen by the loop deletes the target; otherwise the target holds every byte streamed, also after a broken stream |
| Download.TransferResult | discord_installer.py:159-195 | the path only when the stream ended without cancellation or error and the file is non-empty; None otherwise |
| Download.TransferProgressInBand | discord_installer.py:150-180 | with a body no longer than its content length, every signal of `download_discord` is a progress signal in [10, 95], also when the loop stops at a cancellation |
| Download.TransferOutcome | discord_installer.py:159-188 | a cancellation seen in the loop deletes the file and returns None; a returned path names a non-empty file holding exactly the streamed bytes; no other file changes |
| Download.ReportEvents | discord_installer.py:219-229 | success (progress 100, then the path) only with a path and the flag clear; `CANCELLED` whenever the flag is set; otherwise the download error |
| Download.ReportEventsOneCompletion | discord_installer.py:219-229 | the report of a download holds exactly one completion signal, and it is the last signal |
| Download.RunEvents | discord_installer.py:197-229 | `run`'s signals: the query at 5, then either the no-version error or the detected version, followed by the transfer and its report unless the flag is set at the check before the download |
| Download.RunFiles | discord_installer.py:197-229 | the directory changes only when a version was found and the flag was clear at the check before the download, and then as `TransferFiles` says |
| Download.RunTerminalCount | discord_installer.py:197-229 | `run` emits one completion signal, except none when the version was found and the flag is set at the check before the download |
| Download.CancelAfterTransferKeepsFile | discord_installer.py:217-223 | a cancellation after a complete transfer is reported as `CANCELLED` while the file stays with all its bytes |
| Download.CancelDuringTransferRemovesFile | discord_installer.py:161-223 | a cancellation seen by the loop is reported as `CANCELLED` and leaves no file at the target |
| Download.BrokenStreamKeepsPartialFile | discord_installer.py:159-195 | a stream that breaks is reported as a download error and the truncated file stays |
| Download.DiscordDownloader.constructor | discord_installer.py:95-98 | the flag starts cleared and nothing has been emitted |
| Download.DiscordDownloader.Cancel | discord_installer.py:100-103 | `cancel()` sets the flag |
| Download.DiscordDownloader.WriteChunks | discord_installer.py:159-178 | the loop either stops at the first check that sees the flag, having deleted the file and emitted progress for the chunks before it, or writes all chunks with one progress signal per non-empty chunk |
| Download.DiscordDownloader.DownloadDiscord | discord_installer.py:140-195 | the returned path, the files and the signals equal the functions `TransferResult`, `TransferFiles` and `TransferEvents`, whose properties the lemmas above prove |
| Download.DiscordDownloader.DownloadAndReport | discord_installer.py:217-229 | download then report: success only with a path and no cancellation, `CANCELLED` whenever the flag is set, otherwise a download error; the flag ends set exactly when `cancel()` was called |
| Download.DiscordDownloader.GetLatestVersionInfo | discord_installer.py:105-138 | a failed HEAD request gives None; a version comes from the final URL of the redirect, as `ResolvedVersion` extracts it |
| Download.DiscordDownloader.DownloadResolved | discord_installer.py:211-229 | with the flag set before the download nothing more happens; otherwise the download and its report follow; the flag ends set exactly when it was set before or `cancel()` was called |
| Download.DiscordDownloader.RunWithVersion | discord_installer.py:197-229 | given the lookup's result, the signals and the files equal `RunEvents` and `RunFiles`; the flag ends set exactly when it was set before, or a version was found and `cancel()` was called |
| Download.DiscordDownloader.Run | discord_installer.py:197-233 | the signals and the files equal `RunEvents` and `RunFiles` on the version the lookup resolves, for every timing of `cancel()`; the flag ends as `RunWithVersion` says |
| SystemUtils.FirstReadable | discord_installer.py:331-343 | the first root whose metadata parses, and no earlier one does |
| SystemUtils.GetInstalledVersion | discord_installer.py:329-350 | the first readable metadata decides, defaulting to "Desconocida"; if no metadata is readable, "Instalado" exactly when some root has the binary; otherwise None |
| SystemUtils.PrimaryRootWins | discord_installer.py:331-341 | readable metadata under `/opt/discord` hides everything under `/usr/share/discord` |
| SystemUtils.NullVersionHidesBinary | discord_installer.py:336-341 | a JSON `null` version reports no installation even with the binary present |
| ProcessOutput.Strip | discord_installer.py:630 | `strip()` removes exactly the surrounding whitespace and leaves non-space characters at both ends |
| ProcessOutput.Split | discord_installer.py:630 | `split('\n')` returns at least one piece, none containing a newline |
| ProcessOutput.JoinSplit | discord_installer.py:630 | joining the pieces with newlines gives back the text |
| ProcessOutput.LogLines | discord_installer.py:630-632 | every logged line is non-empty and has no newline; order and multiplicity are stated by `LogLinesInOrder` |
| ProcessOutput.NonEmptyAppend | discord_installer.py:631-632 | dropping the empty pieces distributes over concatenation |
| ProcessOutput.NonEmptyKeepsOrder | discord_installer.py:631-632 | the kept pieces are the non-empty ones, each once, in their original order: the k-th kept piece sits at the k-th of a strictly increasing sequence of positions that holds every non-empty piece |
| ProcessOutput.LogLinesInOrder | discord_installer.py:631-634 | the logged lines are the non-empty pieces of the stripped output, each once and in order |
| ProcessOutput.BlankOutputLogsNothing | discord_installer.py:630-632 | output made only of whitespace logs nothing |
| ProcessOutput.EveryLineLogged | discord_installer.py:630-634 | every non-blank piece of the stripped output is logged |
| Installer.Newest | discord_installer.py:530-531 | the stable newest-first sort's head: a matching entry with the greatest mtime, strictly newer than every matching entry listed before it; None exactly when nothing matches |
| Installer.FindDiscordTar | discord_installer.py:516-539 | an unreadable directory gives None; otherwise an archive is found exactly when `Newest` picks an entry, and the result is that entry's full path with its size |
| Installer.StrictlyNewestIsFound | discord_installer.py:530-535 | an archive strictly newer than every other match is returned, with its size, whatever the listing order |
| Installer.TieGoesToFirstListed | discord_installer.py:530-531 | between equal modification times the first-listed archive wins |
| Installer.NoArchiveNoResult | discord_installer.py:523-527 | no matching name gives None |
| Installer.NatToString | discord_installer.py:555 | the MB figure is rendered as decimal digits without leading zeros whose decimal value (`DigitsValue`) is the figure itself |
| Installer.ValidateInstallationRequirements | discord_installer.py:541-559 | compatible if and only if `pkexec` exists and the free space, when readable, is at least 500 MiB; the missing-`pkexec` message takes precedence over the space message |
| Installer.ReportedSpaceBelowRequirement | discord_installer.py:554-555 | a refusal for space reports fewer than 500 whole MiB, rounded down |
| Installer.UnknownSpaceOnlyNeedsPkexec | discord_installer.py:549-559 | an unreadable free-space figure never blocks |
| Installer.InstallEvents | discord_installer.py:561-625 | `install` starts with the validation signals and ends with the corrupt-archive or start failure when those happen |
| Installer.InstallTerminals | discord_installer.py:561-625 | `install` reports completion once when it fails and never when the process started |
| Installer.FinishEvents | discord_installer.py:645-661 | the progress and completion signals `_on_process_finished` emits for an exit code, classified as `FinishClassification` states |
| Installer.FinishClassification | discord_installer.py:645-661 | success exactly for exit 0, `CANCELLED` exactly for 126 and 127, a failure otherwise; always a progress signal then one completion |
| Installer.LogEvents | discord_installer.py:627-643 | one log signal per line, in order, carrying the marker and the line |
| Installer.DiscordInstaller.constructor | discord_installer.py:510-514 | no process, no script path, nothing emitted |
| Installer.DiscordInstaller.Cleanup | discord_installer.py:671-678 | the remembered script is removed if present; the path stays remembered |
| Installer.DiscordInstaller.Install | discord_installer.py:561-625 | a rejected archive cleans up and changes no process; otherwise a fresh script for the archive and `/opt/discord` is written, a single-shot timer of `Config.ProcessTimeout` (five minutes) armed and the process started; a start failure removes the script again |
| Installer.DiscordInstaller.OnProcessFinished | discord_installer.py:645-661 | cleans up the current script, then emits `FinishEvents` for the exit code; the current process is marked finished only when it is the one that exited |
| Installer.DiscordInstaller.OnTimeout | discord_installer.py:663-669 | the earliest armed timer fires; only a running process is killed, cleaned up and reported as timed out; otherwise nothing but the timers changes |
| Installer.DiscordInstaller.EmitLogs | discord_installer.py:631-634 | the loop emits exactly `LogEvents` for the lines |
| Installer.DiscordInstaller.LogOutput | discord_installer.py:627-643 | logs `LogLines(output)` when there is a process, nothing otherwise |
| Installer.DiscordInstaller.OnStdoutReady | discord_installer.py:627-634 | stdout lines are logged unprefixed |
| Installer.DiscordInstaller.OnStderrReady | discord_installer.py:636-643 | stderr lines are logged with the "⚠ " prefix |
| Installer.TimeoutThenFinished | discord_installer.py:645-669 | a timeout followed by the killed process's exit yields two completion signals |
| Installer.SecondInstallThenStaleExit | discord_installer.py:561-669 | assuming the replaced process outlives the rebind: after a second `install`, the first process's exit reports success and removes the second script while the second process runs on; the first timer then kills it and reports a timeout: two completions |
| Installer.CleanupTwice | discord_installer.py:671-678 | `_cleanup` is idempotent |
| Installer.InstallThenFinish | discord_installer.py:561-661 | a started run followed by its exit leaves no script and exactly one completion |
| Transaction.Trap | discord_installer.py:378-388 | `cleanup_on_error`: the backup replaces the install dir only when both exist, and is then gone; otherwise nothing changes |
| Transaction.Leftover | discord_installer.py:409 | what a failed copy or removal leaves is a subset of the original tree with the same contents |
| Transaction.Failure | discord_installer.py:394-494 | the first failing command is one that the script actually executes |
| Transaction.Snapshot | discord_installer.py:394-494 | the state just before each command when every earlier command succeeded: install dir, backup, temp dir, menu entry and symlink as the commands before it leave them |
| Transaction.Partial | discord_installer.py:409-487 | a failing `cp -r` of the install dir or `rm -rf` of the install or backup dir leaves part of the tree; every other failing command changes nothing |
| Transaction.Expected | discord_installer.py:357-495 | the script's final state and exit code: an invalid archive changes nothing and exits 1; the first failure runs the trap over what it left; no folder exits 1 with the backup left; otherwise the new tree is installed and it exits 0 |
| Transaction.ExpectedAtFault | discord_installer.py:378-494 | an executed fault, with no missing binary failing before it, is the first failure, and the script ends in the trap from what that command left |
| Transaction.ExpectedWithoutFault | discord_installer.py:394-494 | with no executed fault and a folder holding `Discord`, the script installs that folder and exits 0 |
| Transaction.EntryLaunchesLinkTarget | discord_installer.py:446-470 | the menu entry's `Exec` line launches the file the symlink points to |
| Transaction.InvalidArchiveChangesNothing | discord_installer.py:394-404 | a missing or unlistable archive exits 1 with nothing changed and without the trap |
| Transaction.ExitCodes | discord_installer.py:378-494 | the script exits 0 or 1, and 0 exactly when a folder was found and no command failed |
| Transaction.SuccessState | discord_installer.py:446-494 | after success: the new tree plus menu entry is installed, the entry published, the symlink names `/opt/discord/Discord`, no backup or temp dir is left |
| Transaction.BackupOnlyOfPriorInstall | discord_installer.py:406-410 | a backup exists afterwards only if an installation existed before |
| Transaction.NoFolderLeavesBackup | discord_installer.py:418-424 | a folder-less archive exits 1 without the trap: the installation is untouched, the backup stays in `/tmp` |
| Transaction.FailureBeforeMoveLosesInstall | discord_installer.py:378-437 | a failing `mkdir -p` or `mv` during an upgrade leaves no installation, the old one only in the backup |
| Transaction.LateFailureRestoresUpgrade | discord_installer.py:378-488 | during an upgrade, a failure after the move restores the old tree and drops the backup |
| Transaction.FirstInstallFailureKeepsNewTree | discord_installer.py:378-442 | on a first installation, a failure after the move leaves the new tree in place |
| Transaction.MissingBinaryOnFirstInstall | discord_installer.py:437-441 | a folder without `Discord` fails at `chmod +x`; on a first install the folder stays, with the temp dir |
| Transaction.PartialBackupReplacesInstall | discord_installer.py:378-410 | a partly failed `cp -r` makes the trap replace the intact installation with the partial copy |
| Transaction.BackupRemovalFailureReverts | discord_installer.py:378-488 | a failure removing the backup replaces the new installation with the backup's leftover and exits 1 |
| Transaction.TrapLeavesTempDir | discord_installer.py:378-388 | the trap never removes the temporary directory |
| Transaction.ScriptOutcomeAsReported | discord_installer.py:645-661 | the script's exit is reported as success exactly when it is 0 and is never read as a refused authorization |
| Transaction.Host.constructor | discord_installer.py:366-368 | the host starts in the given state |
| Transaction.Host.CleanupOnError | discord_installer.py:378-386 | `cleanup_on_error` restores only when backup and install dir both exist, and exits 1 |
| Transaction.Host.Prepare | discord_installer.py:394-425 | validation, backup, extraction and folder search end in `Expected`'s outcome, or reach the state before `rm -rf` |
| Transaction.Host.Replace | discord_installer.py:428-437 | removing the old tree and moving the new one end in `Expected`'s outcome, or reach the state before `chmod +x` |
| Transaction.Host.SetPermissions | discord_installer.py:440-442 | `chmod +x` fails exactly when the tree has no `Discord` file; the permission step ends in `Expected`'s outcome, or reaches the state before the menu entry |
| Transaction.Host.PublishEntry | discord_installer.py:446-464 | writing and copying the menu entry end in `Expected`'s outcome, or reach the state before `chmod 644` |
| Transaction.Host.LinkBinary | discord_installer.py:465-470 | the entry's mode and the symlink end in `Expected`'s outcome, or reach the state before cleanup |
| Transaction.Host.Finish | discord_installer.py:482-494 | removing the temp dir and backup ends in `Expected`'s outcome |
| Transaction.Host.Run | discord_installer.py:357-495 | the whole script ends in exactly the state and exit code the table `Expected` gives |
| Controller.Scan | discord_installer.py:946-1043 | a scan resets the archive and the latest version, re-reads the installed version, and sets the button by compatibility, mode, connectivity and the archive found (properties in the lemmas below) |
| Controller.Click | discord_installer.py:1135-1164 | a click downloads in automatic mode without an archive, installs a selected archive when confirmed, and otherwise shows an error |
| Controller.DownloadDone | discord_installer.py:1086-1133 | `CANCELLED` re-enables the download button; a success selects the file and installs it or offers it; any other outcome shows the error and offers a retry |
| Controller.InstallDone | discord_installer.py:1190-1219 | `CANCELLED` re-enables the install button; a success closes the window; any other outcome shows the error and offers a retry |
| Controller.ScanNeverDisables | discord_installer.py:958-1043 | a scan enables the button exactly when there is something to do and otherwise leaves it as it was |
| Controller.ScanSelection | discord_installer.py:958-1026 | a scan forgets the archive and latest version, re-reads the installed version, and selects the found archive only in a ready manual scan |
| Controller.ScanOffersUpdate | discord_installer.py:999-1026 | a ready scan offers an update exactly when a version is installed |
| Controller.ScanErrorOnlyWhenIncompatible | discord_installer.py:967-973 | only an incompatible system makes a scan show a dialog, with the validation message |
| Controller.ClickStartsAtMostOne | discord_installer.py:1135-1169 | a click starts at most one thing, disables the button exactly when it does, and keeps the selected archive |
| Controller.ScanThenClick | discord_installer.py:958-1169 | after a ready automatic scan a click downloads; after a ready manual scan a confirmed click installs the found archive |
| Controller.ReactionToExitCode | discord_installer.py:1190-1219 | the window closes exactly after exit 0; otherwise the button is re-enabled with "INSTALAR DISCORD" exactly after 126/127 and "REINTENTAR" after other codes |
| Controller.TimeoutThenExitReportsTwice | discord_installer.py:1190-1219 | a timeout followed by the exit shows two error dialogs |
| Controller.DeclinedDownloadKeptForClick | discord_installer.py:1096-1133 | a declined install after download keeps the file selected, so the next click confirms it |
| Controller.InstallerWindow.constructor | discord_installer.py:737-752 | nothing selected, automatic mode, "BUSCANDO..." disabled |
| Controller.InstallerWindow.ScanAutoMode | discord_installer.py:984-1010 | offline: "SIN INTERNET" without touching the enabled state; online: the action label, enabled |
| Controller.InstallerWindow.ScanManualMode | discord_installer.py:1012-1043 | a found archive is selected with its size and offered, enabled; otherwise "ARCHIVO NO ENCONTRADO" with the enabled state unchanged |
| Controller.InstallerWindow.InitialScan | discord_installer.py:958-982 | the fields and actions equal the table `Scan` |
| Controller.InstallerWindow.OnModeChanged | discord_installer.py:946-956 | the mode is switched and the rescan equals `Scan` in the new mode |
| Controller.InstallerWindow.StartInstallation | discord_installer.py:1166-1178 | disables the button and starts the installer on the path |
| Controller.InstallerWindow.OnInstallClicked | discord_installer.py:1135-1144 | the fields and actions equal the table `Click` |
| Controller.InstallerWindow.OnVersionDetected | discord_installer.py:1080-1084 | records the latest version |
| Controller.InstallerWindow.OnDownloadCompleted | discord_installer.py:1086-1133 | the fields and actions equal the table `DownloadDone` |
| Controller.InstallerWindow.OnInstallationCompleted | discord_installer.py:1190-1219 | the fields and actions equal the table `InstallDone` |

## Left out

- Qt widgets, styles, dialogs' texts, status labels, the progress bar, the log view and the window closing delay: only the decision fields, the button and the actions are modelled.
- Network access (the HEAD request, the streamed GET, the connectivity probe): replaced by their results, `HeadResult`, `Response` and `Probe.online`.
- `xdg-user-dir`, `which pkexec`, `os.statvfs`, `tarfile` validation and SHA-256 hashing: replaced by their answers; the choice between `/opt` and `/usr` for `statvfs` is inside `SpaceProbe`.
- Threads, timers and Qt signal delivery: handlers run one after another in the order given; `cancel()` is placed by `CancelTiming` at one of the flag checks.
- Floating-point MB strings in progress and file-info messages: kept as their integer inputs (`Megabytes`).
- UTF-8 decoding of the process output: the model receives the decoded text.
- Logging and timestamps, including the script's own log file and `tee`.
- The cache refresh commands of the script: they cannot fail (`|| true`) and change nothing the model tracks.
- File permission bits (`chmod`, mode 755 of the temporary script): the commands are steps that can fail, but the modes are not tracked.
- Transaction.Host.Run: failures of commands inside the trap itself and of the `rm -rf` before the script's own `exit 1` are not modelled; a failing command other than `cp -r` and `rm -rf` is taken to leave nothing behind.
- Transaction.Host.Run: requires that no backup and no temporary directory of this run exist beforehand, because both names are fresh (`date +%s`, `mktemp`).
- Installer.SecondInstallThenStaleExit: assumes the `QProcess` replaced by a second `install` stays alive and exits later on its own. In fact the process is created without a parent and `self.process` holds its only reference, so PySide deletes it when `self.process` is rebound; Qt's destructor kills the child and waits for it. Its `finished` signal, if delivered, then arrives during the rebind, after the second script's path is remembered and before `start`, deleting that script before `pkexec` gets it. The model does not capture object lifetimes, so it does not capture this.
- Installer.DiscordInstaller.OnProcessFinished: `current = false` stands for an exit of a replaced process, which by the line above can only happen during the rebind in a second `install`; the model lets it happen at any later point.
- Installer.DiscordInstaller.Install: requires a fresh temporary name, as `NamedTemporaryFile` guarantees; a failure writing the script and a process that starts after `waitForStarted` gave up are not modelled.
- OSErrors from the file-system probes are not modelled: `get_download_dir` catches only a timeout or a missing `xdg-user-dir`, and `get_installed_version` calls `exists()` outside its `try`. With such an error, `_initial_scan` would show "Error al escanear el sistema" after resetting the archive and the latest version, and `_start_download` would show its error dialog. Neither handler is modelled.
- Controller.ScanErrorOnlyWhenIncompatible: holds only under the assumption above that the file-system probes raise no OSError.
- SystemUtils.GetInstalledVersion: a `version` in `build_info.json` that is neither a string nor null (a number, a list) is returned as is by the code; `VersionField` has no case for it, so the model covers only text, null and a missing key.
- `run`'s catch-all exception handler: every call it guards catches its own errors.
- The argument quoting of `shlex.quote` and the template's version and date header.
