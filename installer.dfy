/** `DiscordInstaller`: finds a local archive, checks the system, and runs the
    installation script under `pkexec` as a child process, turning the
    process's output and exit code into signals. The filesystem, `pkexec`,
    `statvfs`, `tarfile` and the Qt process are replaced by what they report. */
module Installer {
  import opened Wrappers
  import Config
  import ProcessOutput
  import Signals

  // ---------------------------------------------------------------------
  // find_discord_tar

  /** One entry of the downloads directory as `Path.glob` lists it, with the
      modification time and size `stat()` reports. */
  datatype DirEntry = DirEntry(name: string, mtime: int, size: nat)

  const ArchivePrefix: string := "discord-"
  const ArchiveSuffix: string := ".tar.gz"

  /** The glob `discord-*.tar.gz` on a plain file name: the `*` may match the
      empty string, so the shortest match is `discord-.tar.gz`. */
  predicate MatchesArchiveGlob(name: string) {
    |name| >= |ArchivePrefix| + |ArchiveSuffix|
    && name[..|ArchivePrefix|] == ArchivePrefix
    && name[|name| - |ArchiveSuffix|..] == ArchiveSuffix
  }

  predicate Candidate(listing: seq<DirEntry>, j: int) {
    0 <= j < |listing| && MatchesArchiveGlob(listing[j].name)
  }

  /** The head of the matching entries after the stable sort by modification
      time, newest first: the greatest `mtime`, and among equal times the one
      listed first. */
  function Newest(listing: seq<DirEntry>): (r: Option<nat>)
    ensures r.Some? ==> Candidate(listing, r.value)
    ensures r.Some? ==> forall j :: Candidate(listing, j) ==> listing[j].mtime <= listing[r.value].mtime
    ensures r.Some? ==> forall j :: 0 <= j < r.value && Candidate(listing, j) ==>
      listing[j].mtime < listing[r.value].mtime
    ensures r.None? ==> forall j :: !Candidate(listing, j)
  {
    if listing == [] then None
    else
      var n := |listing| - 1;
      var best := Newest(listing[..n]);
      assert forall j :: 0 <= j < n ==> (Candidate(listing[..n], j) <==> Candidate(listing, j));
      assert forall j :: Candidate(listing, j) && j != n ==> Candidate(listing[..n], j);
      if MatchesArchiveGlob(listing[n].name)
         && (best.None? || listing[n].mtime > listing[best.value].mtime)
      then Some(n)
      else best
  }

  /** `find_discord_tar()`: the newest archive in the downloads directory
      with its size. `listing` is None when listing or `stat()` raises; the
      exception is caught and reported as "not found". */
  function FindDiscordTar(dir: string, listing: Option<seq<DirEntry>>): (r: Option<(string, nat)>)
    ensures r.Some? ==> listing.Some?
    ensures listing.Some? ==> (r.Some? <==> Newest(listing.value).Some?)
    ensures r.Some? ==> var j := Newest(listing.value).value;
      r.value == (dir + "/" + listing.value[j].name, listing.value[j].size)
    ensures r.Some? ==> exists j ::
      (Candidate(listing.value, j) && r.value == (dir + "/" + listing.value[j].name, listing.value[j].size))
  {
    match listing
    case None => None
    case Some(entries) =>
      match Newest(entries)
      case None => None
      case Some(j) => Some((dir + "/" + entries[j].name, entries[j].size))
  }

  /** Whatever the order of listing, an archive that is strictly newer than
      every other match is the one found. */
  lemma StrictlyNewestIsFound(dir: string, entries: seq<DirEntry>, k: nat)
    requires Candidate(entries, k)
    requires forall j :: Candidate(entries, j) && j != k ==> entries[j].mtime < entries[k].mtime
    ensures FindDiscordTar(dir, Some(entries)) == Some((dir + "/" + entries[k].name, entries[k].size))
  {
    var r := Newest(entries);
    assert r.Some?;
  }

  /** Two archives with the same modification time: the one listed first is
      chosen, whatever their names. */
  lemma TieGoesToFirstListed(dir: string, a: DirEntry, b: DirEntry)
    requires MatchesArchiveGlob(a.name) && MatchesArchiveGlob(b.name)
    requires a.mtime == b.mtime
    ensures FindDiscordTar(dir, Some([a, b])) == Some((dir + "/" + a.name, a.size))
  {
    assert Candidate([a, b], 0);
  }

  /** A directory with no matching name yields nothing. */
  lemma NoArchiveNoResult(dir: string, entries: seq<DirEntry>)
    requires forall j :: 0 <= j < |entries| ==> !MatchesArchiveGlob(entries[j].name)
    ensures FindDiscordTar(dir, Some(entries)).None?
  {
  }

  // ---------------------------------------------------------------------
  // validate_installation_requirements

  /** What `os.statvfs` reports: free bytes available to unprivileged users,
      or an exception, which the check ignores. */
  datatype SpaceProbe = SpaceUnknown | FreeBytes(bytes: nat)

  const PkexecMissing: string := "pkexec no está disponible. Instala policykit."
  const Compatible: string := "Sistema compatible"

  /** The number a string of decimal digits denotes, most significant first. */
  function DigitsValue(s: string): nat {
    if s == [] then 0
    else DigitsValue(s[..|s| - 1]) * 10 + DigitValue(s[|s| - 1])
  }

  function DigitValue(c: char): nat {
    if '0' <= c <= '9' then (c as int) - ('0' as int) else 0
  }

  /** Decimal rendering of a natural number, as an f-string prints it: the
      digits read back as `n`, with no leading zero. */
  function NatToString(n: nat): (r: string)
    ensures |r| >= 1
    ensures forall i :: 0 <= i < |r| ==> '0' <= r[i] <= '9'
    ensures |r| > 1 ==> r[0] != '0'
    ensures DigitsValue(r) == n
  {
    if n < 10 then [Digit(n)]
    else
      var r := NatToString(n / 10) + [Digit(n % 10)];
      assert r[..|r| - 1] == NatToString(n / 10);
      r
  }

  function Digit(d: nat): (c: char)
    requires d < 10
    ensures '0' <= c <= '9' && DigitValue(c) == d
  {
    ('0' as int + d) as char
  }

  function InsufficientSpace(available: nat): string {
    "Espacio insuficiente. Se requieren 500 MB, disponibles: " + NatToString(available / Config.MiB) + " MB"
  }

  /** `validate_installation_requirements()`: `pkexec` must be on the path,
      and the install filesystem must have 500 MiB free when its free space
      can be read. */
  function ValidateInstallationRequirements(hasPkexec: bool, space: SpaceProbe): (r: (bool, string))
    ensures r.0 <==> hasPkexec && (space.FreeBytes? ==> space.bytes >= Config.RequiredSpace)
    ensures r.0 ==> r.1 == Compatible
    ensures !hasPkexec ==> r.1 == PkexecMissing
    ensures hasPkexec && space.FreeBytes? && space.bytes < Config.RequiredSpace ==>
      r.1 == InsufficientSpace(space.bytes)
  {
    if !hasPkexec then (false, PkexecMissing)
    else if space.FreeBytes? && space.bytes < Config.RequiredSpace then (false, InsufficientSpace(space.bytes))
    else (true, Compatible)
  }

  /** A refusal for lack of space always reports fewer than 500 whole MiB,
      rounded down. */
  lemma ReportedSpaceBelowRequirement(bytes: nat)
    requires bytes < Config.RequiredSpace
    ensures bytes / Config.MiB < 500
    ensures (bytes / Config.MiB) * Config.MiB <= bytes
  {
  }

  /** An unreadable free-space figure never blocks the installation. */
  lemma UnknownSpaceOnlyNeedsPkexec(hasPkexec: bool)
    ensures ValidateInstallationRequirements(hasPkexec, SpaceUnknown).0 == hasPkexec
  {
  }

  // ---------------------------------------------------------------------
  // The installation process

  /** The installer's Qt signals: `log_message`, `progress_updated` and
      `installation_completed`. */
  datatype InstallerEvent =
    | Log(line: string)
    | Progress(percent: int, text: string)
    | Completed(success: bool, message: string)

  /** The parameters the script template is filled with. */
  datatype Script = Script(tarPath: string, installDir: string)

  /** The state of the `QProcess` the installer holds. */
  datatype ProcessState = NotRunning | Running

  const CorruptArchive: string := "El archivo tar.gz está corrupto o es inválido"
  const StartFailed: string := "No se pudo iniciar el proceso de instalación"
  const Installed: string := "Discord se instaló correctamente"
  const Cancelled: string := "CANCELLED"
  const Failed: string := "La instalación falló. Verifica los logs para más detalles."
  const TimedOut: string := "Timeout: La instalación tomó demasiado tiempo"
  const StderrMarker: string := "⚠ "

  /** What `install` emits before the archive is checked. */
  function ValidatingEvents(): seq<InstallerEvent> {
    [Log("Validando archivo de instalación..."), Progress(10, "Validando archivo...")]
  }

  /** What `install` emits once the archive passed, up to the script. */
  function ScriptEvents(): seq<InstallerEvent> {
    [Log("Archivo validado correctamente"), Progress(20, "Generando script de instalación..."),
     Log("Solicitando privilegios de administrador..."), Progress(30, "Esperando autorización...")]
  }

  function StartedEvents(): seq<InstallerEvent> {
    [Log("Instalación en progreso..."), Progress(40, "Instalando Discord...")]
  }

  /** The signals `install` emits, given whether the archive opens as a
      non-empty gzip tar and whether `pkexec` starts within 5 seconds. */
  function InstallEvents(tarValid: bool, started: bool): (r: seq<InstallerEvent>)
    ensures |r| >= 2 && r[..2] == ValidatingEvents()
    ensures !tarValid ==> r[|r| - 1] == Completed(false, CorruptArchive)
    ensures tarValid && !started ==> r[|r| - 1] == Completed(false, StartFailed)
  {
    if !tarValid then ValidatingEvents() + [Completed(false, CorruptArchive)]
    else if !started then ValidatingEvents() + ScriptEvents() + [Completed(false, StartFailed)]
    else ValidatingEvents() + ScriptEvents() + StartedEvents()
  }

  /** The signals `_on_process_finished` emits for an exit code. */
  function FinishEvents(exitCode: int): seq<InstallerEvent> {
    if exitCode == 0 then [Progress(100, "¡Instalación completada!"), Completed(true, Installed)]
    else if exitCode == 126 || exitCode == 127 then [Progress(0, "Instalación cancelada"), Completed(false, Cancelled)]
    else [Progress(0, "Instalación fallida"), Completed(false, Failed)]
  }

  predicate IsCompletion(e: InstallerEvent) {
    e.Completed?
  }

  /** Number of `installation_completed` signals among `events`. */
  function Terminals(events: seq<InstallerEvent>): nat {
    Signals.Count(events, IsCompletion)
  }

  /** `install` reports completion only when it fails: once when the archive
      is rejected or `pkexec` does not start, never when it started. */
  lemma InstallTerminals(tarValid: bool, started: bool)
    ensures Terminals(InstallEvents(tarValid, started)) == (if tarValid && started then 0 else 1)
  {
    var v, s, t := ValidatingEvents(), ScriptEvents(), StartedEvents();
    Signals.CountNone(v, IsCompletion);
    Signals.CountNone(v + s, IsCompletion);
    Signals.CountNone(v + s + t, IsCompletion);
    if !tarValid {
      assert (v + [Completed(false, CorruptArchive)])[..|v|] == v;
    } else if !started {
      assert (v + s + [Completed(false, StartFailed)])[..|v + s|] == v + s;
    }
  }

  /** The classification of exit codes: success exactly for 0, "CANCELLED"
      exactly for 126 and 127 (what `pkexec` returns when authorization is
      refused or cannot be obtained), and a generic failure otherwise; in
      each case one completion signal, last, after a progress signal. */
  lemma FinishClassification(exitCode: int)
    ensures |FinishEvents(exitCode)| == 2 && Terminals(FinishEvents(exitCode)) == 1
    ensures FinishEvents(exitCode)[0].Progress? && FinishEvents(exitCode)[1].Completed?
    ensures FinishEvents(exitCode)[1].success <==> exitCode == 0
    ensures FinishEvents(exitCode)[1].message == Cancelled <==> exitCode == 126 || exitCode == 127
    ensures FinishEvents(exitCode)[0].percent == (if exitCode == 0 then 100 else 0)
  {
    var r := FinishEvents(exitCode);
    Signals.CountNone(r[..1], IsCompletion);
  }

  /** The lines logged for one block of output, each prefixed by `marker`. */
  function LogEvents(lines: seq<string>, marker: string): (r: seq<InstallerEvent>)
    ensures |r| == |lines|
    ensures forall k :: 0 <= k < |r| ==> r[k] == Log(marker + lines[k])
  {
    if lines == [] then []
    else LogEvents(lines[..|lines| - 1], marker) + [Log(marker + lines[|lines| - 1])]
  }

  class DiscordInstaller {
    /** `self.process`: None until `install` creates the process. */
    var process: Option<ProcessState>
    var tmpScriptPath: Option<string>
    var tarFilePath: Option<string>
    /** Installation scripts present on disk, by path. */
    var scripts: map<string, Script>
    /** Delays, in milliseconds, of the single-shot timers armed and not yet
        fired, in the order they were armed (which is the order they fire,
        since every delay is the same). */
    var armedTimers: seq<nat>
    /** Signals emitted so far, in order. */
    var events: seq<InstallerEvent>

    constructor (scripts: map<string, Script>)
      ensures this.scripts == scripts
      ensures process.None? && tmpScriptPath.None? && tarFilePath.None?
      ensures armedTimers == [] && events == []
    {
      this.scripts := scripts;
      process := None;
      tmpScriptPath := None;
      tarFilePath := None;
      armedTimers := [];
      events := [];
    }

    /** `_cleanup()`: deletes the script if the remembered path still names
        one; the path itself stays remembered. */
    method Cleanup()
      modifies this`scripts
      ensures scripts == (if tmpScriptPath.Some? then old(scripts) - {tmpScriptPath.value} else old(scripts))
      ensures tmpScriptPath.Some? ==> tmpScriptPath.value !in scripts
    {
      if tmpScriptPath.Some? && tmpScriptPath.value in scripts {
        scripts := scripts - {tmpScriptPath.value};
      }
    }

    /** `install(tar_path)`. `tarValid` is what `validate_tar_file` answers,
        `tempName` the fresh name `NamedTemporaryFile` picks, and `started`
        whether `waitForStarted(5000)` succeeds. */
    method Install(tarPath: string, tarValid: bool, tempName: string, started: bool)
      requires tempName !in scripts
      modifies this`process, this`tmpScriptPath, this`tarFilePath, this`scripts, this`armedTimers, this`events
      ensures tarFilePath == Some(tarPath)
      ensures events == old(events) + InstallEvents(tarValid, started)
      ensures !tarValid ==> process == old(process) && tmpScriptPath == old(tmpScriptPath)
      ensures !tarValid ==> armedTimers == old(armedTimers)
      ensures !tarValid ==>
        scripts == (if old(tmpScriptPath).Some? then old(scripts) - {old(tmpScriptPath).value} else old(scripts))
      ensures tarValid ==> tmpScriptPath == Some(tempName) && armedTimers == old(armedTimers) + [Config.ProcessTimeout]
      ensures tarValid ==> process == Some(if started then Running else NotRunning)
      ensures tarValid && started ==> scripts == old(scripts)[tempName := Script(tarPath, Config.InstallDir)]
      ensures tarValid && !started ==> scripts == old(scripts)
    {
      tarFilePath := Some(tarPath);
      events := events + ValidatingEvents();
      if !tarValid {
        Cleanup();
        events := events + [Completed(false, CorruptArchive)];
        return;
      }
      scripts := scripts[tempName := Script(tarPath, Config.InstallDir)];
      tmpScriptPath := Some(tempName);
      events := events + ScriptEvents();
      armedTimers := armedTimers + [Config.ProcessTimeout];
      if !started {
        process := Some(NotRunning);
        Cleanup();
        assert scripts == old(scripts);
        events := events + [Completed(false, StartFailed)];
        return;
      }
      process := Some(Running);
      events := events + StartedEvents();
    }

    /** `_on_process_finished(exit_code, exit_status)`, delivered by the
        `finished` signal of some process `install` started. `current` says
        whether that process is still the one `self.process` names. The
        handler never looks at `self.process`, so an exit of a replaced
        process leaves the current process running yet still cleans up the
        current script and reports a completion. */
    method OnProcessFinished(exitCode: int, current: bool)
      modifies this`process, this`scripts, this`events
      ensures process == (if current then Some(NotRunning) else old(process))
      ensures scripts == (if tmpScriptPath.Some? then old(scripts) - {tmpScriptPath.value} else old(scripts))
      ensures events == old(events) + FinishEvents(exitCode)
    {
      if current {
        process := Some(NotRunning);
      }
      Cleanup();
      if exitCode == 0 {
        events := events + [Progress(100, "¡Instalación completada!"), Completed(true, Installed)];
      } else if exitCode == 126 || exitCode == 127 {
        events := events + [Progress(0, "Instalación cancelada"), Completed(false, Cancelled)];
      } else {
        events := events + [Progress(0, "Instalación fallida"), Completed(false, Failed)];
      }
    }

    /** `_on_timeout()`, when the earliest armed timer fires: a process still
        running is killed and the installation reported as timed out;
        otherwise nothing happens. */
    method OnTimeout()
      requires armedTimers != []
      modifies this`process, this`scripts, this`armedTimers, this`events
      ensures armedTimers == old(armedTimers)[1..]
      ensures old(process) == Some(Running) ==> process == Some(NotRunning)
      ensures old(process) == Some(Running) ==>
        scripts == (if tmpScriptPath.Some? then old(scripts) - {tmpScriptPath.value} else old(scripts))
      ensures old(process) == Some(Running) ==> events == old(events) + [Completed(false, TimedOut)]
      ensures old(process) != Some(Running) ==>
        process == old(process) && scripts == old(scripts) && events == old(events)
    {
      armedTimers := armedTimers[1..];
      if process == Some(Running) {
        process := Some(NotRunning);
        Cleanup();
        events := events + [Completed(false, TimedOut)];
      }
    }

    /** Emits one log signal per line, each prefixed by `marker`. */
    method EmitLogs(lines: seq<string>, marker: string)
      modifies this`events
      ensures events == old(events) + LogEvents(lines, marker)
    {
      var k := 0;
      while k < |lines|
        invariant 0 <= k <= |lines|
        invariant events == old(events) + LogEvents(lines[..k], marker)
      {
        assert lines[..k + 1][..k] == lines[..k];
        events := events + [Log(marker + lines[k])];
        k := k + 1;
      }
      assert lines[..k] == lines;
    }

    /** Logs each non-blank line of an output block, prefixed by `marker`,
        when there is a process to read from. */
    method LogOutput(output: string, marker: string)
      modifies this`events
      ensures events == old(events)
        + (if process.Some? then LogEvents(ProcessOutput.LogLines(output), marker) else [])
    {
      if process.Some? {
        EmitLogs(ProcessOutput.LogLines(output), marker);
      } else {
        assert events == old(events) + [];
      }
    }

    /** `_on_stdout_ready()`, given what `readAllStandardOutput` returns. */
    method OnStdoutReady(output: string)
      modifies this`events
      ensures events == old(events)
        + (if process.Some? then LogEvents(ProcessOutput.LogLines(output), "") else [])
    {
      LogOutput(output, "");
    }

    /** `_on_stderr_ready()`, given what `readAllStandardError` returns. */
    method OnStderrReady(output: string)
      modifies this`events
      ensures events == old(events)
        + (if process.Some? then LogEvents(ProcessOutput.LogLines(output), StderrMarker) else [])
    {
      LogOutput(output, StderrMarker);
    }
  }

  /** A run that times out and whose killed `pkexec` then reports its exit
      emits two completion signals: the timeout and the failure. Nothing
      disconnects `finished` when the timeout fires. */
  method TimeoutThenFinished(installer: DiscordInstaller, exitCode: int)
    requires installer.process == Some(Running) && installer.armedTimers != []
    requires Terminals(installer.events) == 0
    modifies installer
    ensures Terminals(installer.events) == 2
    ensures |installer.events| >= 3 && installer.events[|installer.events| - 3] == Completed(false, TimedOut)
  {
    installer.OnTimeout();
    ghost var afterTimeout := installer.events;
    installer.OnProcessFinished(exitCode, true);
    FinishClassification(exitCode);
    Signals.CountAppend(old(installer.events), [Completed(false, TimedOut)], IsCompletion);
    Signals.CountAppend(afterTimeout, FinishEvents(exitCode), IsCompletion);
    Signals.CountNone([Completed(false, TimedOut)][..0], IsCompletion);
  }

  /** `_cleanup` is idempotent: a second call finds nothing to remove. */
  method CleanupTwice(installer: DiscordInstaller)
    modifies installer
    ensures installer.scripts == (if installer.tmpScriptPath.Some?
      then old(installer.scripts) - {installer.tmpScriptPath.value} else old(installer.scripts))
  {
    installer.Cleanup();
    ghost var once := installer.scripts;
    installer.Cleanup();
    assert installer.scripts == once;
  }

  /** A run that starts and then exits, whatever the code, leaves no script
      behind and reports exactly one completion. */
  method InstallThenFinish(installer: DiscordInstaller, tarPath: string, tempName: string, exitCode: int)
    requires tempName !in installer.scripts
    modifies installer
    ensures installer.scripts == old(installer.scripts)
    ensures Terminals(installer.events) == Terminals(old(installer.events)) + 1
  {
    installer.Install(tarPath, true, tempName, true);
    ghost var started := installer.events;
    installer.OnProcessFinished(exitCode, true);
    InstallTerminals(true, true);
    Signals.CountAppend(old(installer.events), InstallEvents(true, true), IsCompletion);
    FinishClassification(exitCode);
    Signals.CountAppend(started, FinishEvents(exitCode), IsCompletion);
  }

  /** A second `install` while the first process still runs, assuming the
      replaced process stays alive and exits on its own later: its
      `finished` signal reports success and removes the second script, yet
      the second process keeps running, so the first timer then kills it
      and reports a timeout. */
  method SecondInstallThenStaleExit(installer: DiscordInstaller, tar1: string, tar2: string,
                                    temp1: string, temp2: string)
    requires temp1 !in installer.scripts && temp2 !in installer.scripts && temp1 != temp2
    requires installer.armedTimers == []
    modifies installer
    ensures installer.process == Some(NotRunning)
    ensures installer.armedTimers == [Config.ProcessTimeout]
    ensures temp2 !in installer.scripts
    ensures Terminals(installer.events) == Terminals(old(installer.events)) + 2
    ensures |installer.events| >= 2
    ensures installer.events[|installer.events| - 2] == Completed(true, Installed)
    ensures installer.events[|installer.events| - 1] == Completed(false, TimedOut)
  {
    installer.Install(tar1, true, temp1, true);
    ghost var first := installer.events;
    installer.Install(tar2, true, temp2, true);
    ghost var second := installer.events;
    installer.OnProcessFinished(0, false);
    ghost var finished := installer.events;
    assert finished == second + [Progress(100, "¡Instalación completada!"), Completed(true, Installed)];
    assert installer.process == Some(Running);
    installer.OnTimeout();
    InstallTerminals(true, true);
    FinishClassification(0);
    Signals.CountAppend(old(installer.events), InstallEvents(true, true), IsCompletion);
    Signals.CountAppend(first, InstallEvents(true, true), IsCompletion);
    Signals.CountAppend(second, FinishEvents(0), IsCompletion);
    Signals.OnlyLast([Completed(false, TimedOut)], IsCompletion);
    Signals.CountAppend(finished, [Completed(false, TimedOut)], IsCompletion);
  }
}
