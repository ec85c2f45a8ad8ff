/** The privileged installation script (`INSTALL_SCRIPT_TEMPLATE`) as a state
    machine over the part of the filesystem it touches: the install
    directory, the backup directory, its temporary extraction directory, the
    menu entry and the command symlink.

    The script runs under `set -e` with `trap cleanup_on_error ERR`: a failing
    command runs the trap, which puts the backup back only when both the
    backup and the install directory exist, and exits 1. The script's own
    `exit 1` lines do not run the trap. The model keeps both behaviours. */
module Transaction {
  import opened Wrappers
  import Config
  import Installer

  /** A directory's files, by path relative to the directory. */
  type Tree = map<string, string>

  /** The state the script can change. */
  datatype Fs = Fs(
    installDir: Option<Tree>,
    backupDir: Option<Tree>,
    tempDir: bool,
    desktopEntry: Option<string>,
    binLink: Option<string>)

  /** What the script finds at `DISCORD_TAR`: whether it is a regular file,
      whether `tar -tzf` can list it, and the first directory named `Discord`
      at depth at most 2 after extraction, if any. */
  datatype Archive = Archive(isFile: bool, listable: bool, folder: Option<Tree>)

  /** The commands that can fail after validation, in script order. */
  datatype Step =
    | BackupCopy   // cp -r "$INSTALL_DIR" "$BACKUP_DIR"
    | MakeTemp     // TEMP_DIR=$(mktemp -d)
    | Extract      // tar -xzf
    | RemoveOld    // rm -rf "$INSTALL_DIR"
    | MakeParent   // mkdir -p "$(dirname "$INSTALL_DIR")"
    | MoveFolder   // mv "$DISCORD_FOLDER" "$INSTALL_DIR"
    | ChmodExec    // chmod +x "$INSTALL_DIR/Discord"
    | ChmodTree    // chmod -R 755 "$INSTALL_DIR"
    | WriteEntry   // cat > "$INSTALL_DIR/discord.desktop"
    | MakeAppsDir  // mkdir -p /usr/share/applications
    | CopyEntry    // cp ... /usr/share/applications/discord.desktop
    | ChmodEntry   // chmod 644 ...
    | UnlinkOld    // rm -f /usr/local/bin/discord
    | Link         // ln -s "$INSTALL_DIR/Discord" /usr/local/bin/discord
    | RemoveTemp   // rm -rf "$TEMP_DIR"
    | RemoveBackup // rm -rf "$BACKUP_DIR"

  /** The command that fails, if any. A failing `cp -r` or `rm -rf` leaves
      the files in `keep` behind, or no directory at all for None; the other
      commands leave nothing behind when they fail. */
  datatype Fault = NoFault | FailAt(step: Step, keep: Option<set<string>>)

  function Index(s: Step): nat {
    match s
    case BackupCopy => 0
    case MakeTemp => 1
    case Extract => 2
    case RemoveOld => 3
    case MakeParent => 4
    case MoveFolder => 5
    case ChmodExec => 6
    case ChmodTree => 7
    case WriteEntry => 8
    case MakeAppsDir => 9
    case CopyEntry => 10
    case ChmodEntry => 11
    case UnlinkOld => 12
    case Link => 13
    case RemoveTemp => 14
    case RemoveBackup => 15
  }

  const BinaryName: string := "Discord"
  const EntryName: string := "discord.desktop"

  /** The symlink's target, `$INSTALL_DIR/Discord`. */
  const LinkTarget: string := Config.InstallDir + "/" + BinaryName

  /** The lines of the menu entry the here-document writes, with
      `$INSTALL_DIR` expanded to `dir`. */
  function EntryLines(dir: string): seq<string> {
    ["[Desktop Entry]",
     "Name=Discord",
     "StartupWMClass=discord",
     "Comment=All-in-one voice and text chat for gamers",
     "GenericName=Internet Messenger",
     "Exec=" + dir + "/Discord",
     "Icon=" + dir + "/discord.png",
     "Type=Application",
     "Categories=Network;InstantMessaging;",
     "Path=" + dir,
     "Terminal=false",
     "StartupNotify=true"]
  }

  /** A text file made of `lines`, each ending in a newline. */
  function Unlines(lines: seq<string>): string {
    if lines == [] then "" else lines[0] + "\n" + Unlines(lines[1..])
  }

  /** The menu entry as written for `/opt/discord`. */
  const EntryText: string := Unlines(EntryLines(Config.InstallDir))

  /** The installed tree: the extracted folder plus the menu entry. */
  function WithEntry(folder: Tree): Tree {
    folder[EntryName := EntryText]
  }

  /** What a failed `cp -r` or `rm -rf` of `t` leaves. */
  function Leftover(t: Option<Tree>, keep: Option<set<string>>): (r: Option<Tree>)
    ensures r.Some? ==> t.Some? && r.value.Keys <= t.value.Keys
    ensures r.Some? ==> forall k :: k in r.value ==> r.value[k] == t.value[k]
  {
    if t.None? || keep.None? then None
    else Some(map k | k in t.value && k in keep.value :: t.value[k])
  }

  /** `cleanup_on_error`: restore the backup only if both directories exist. */
  function Trap(fs: Fs): Fs {
    if fs.backupDir.Some? && fs.installDir.Some?
    then fs.(installDir := fs.backupDir, backupDir := None)
    else fs
  }

  // ---------------------------------------------------------------------
  // The script's outcome, stated step by step as a table

  function FolderOf(archive: Archive): Tree {
    if archive.folder.Some? then archive.folder.value else map[]
  }

  /** Whether the command `s` is executed at all when every earlier command
      succeeds: the backup and the removals are guarded by `[ -d ... ]`, and
      nothing after the folder search runs when no folder was found. */
  predicate Runs(pre: Fs, archive: Archive, s: Step) {
    match s
    case BackupCopy => pre.installDir.Some?
    case MakeTemp => true
    case Extract => true
    case RemoveOld => archive.folder.Some? && pre.installDir.Some?
    case RemoveBackup => archive.folder.Some? && pre.installDir.Some?
    case _ => archive.folder.Some?
  }

  /** The first command that fails: the injected fault if it is executed,
      and `chmod +x` when the folder holds no `Discord` file. */
  function Failure(pre: Fs, archive: Archive, fault: Fault): (r: Option<Step>)
    ensures r.Some? ==> Runs(pre, archive, r.value)
  {
    var injected := fault.FailAt? && Runs(pre, archive, fault.step);
    if injected && Index(fault.step) < Index(ChmodExec) then Some(fault.step)
    else if archive.folder.Some? && BinaryName !in archive.folder.value then Some(ChmodExec)
    else if injected then Some(fault.step)
    else None
  }

  function KeepOf(fault: Fault): Option<set<string>> {
    if fault.FailAt? then fault.keep else None
  }

  /** The state just before command `s` runs, when every earlier command
      succeeded. */
  function Snapshot(pre: Fs, folder: Tree, s: Step): Fs {
    var i := Index(s);
    Fs(
      if i <= Index(RemoveOld) then pre.installDir
      else if i <= Index(MoveFolder) then None
      else if i <= Index(WriteEntry) then Some(folder)
      else Some(WithEntry(folder)),
      if i <= Index(BackupCopy) then None else pre.installDir,
      Index(Extract) <= i <= Index(RemoveTemp),
      if i <= Index(CopyEntry) then pre.desktopEntry else Some(EntryText),
      if i <= Index(UnlinkOld) then pre.binLink
      else if i <= Index(Link) then None
      else Some(LinkTarget))
  }

  /** What the failing command itself leaves: a partial copy or a partial
      removal; the other commands change nothing when they fail. */
  function Partial(pre: Fs, fs: Fs, s: Step, keep: Option<set<string>>): Fs {
    match s
    case BackupCopy => fs.(backupDir := Leftover(pre.installDir, keep))
    case RemoveOld => fs.(installDir := Leftover(pre.installDir, keep))
    case RemoveBackup => fs.(backupDir := Leftover(pre.installDir, keep))
    case _ => fs
  }

  /** The state after a complete run. */
  function Installed(folder: Tree): Fs {
    Fs(Some(WithEntry(folder)), None, false, Some(EntryText), Some(LinkTarget))
  }

  /** The final state and exit code of the script from state `pre`. */
  function Expected(pre: Fs, archive: Archive, fault: Fault): (Fs, int) {
    if !archive.isFile || !archive.listable then (pre, 1)
    else
      match Failure(pre, archive, fault)
      case Some(s) =>
        (Trap(Partial(pre, Snapshot(pre, FolderOf(archive), s), s, KeepOf(fault))), 1)
      case None =>
        if archive.folder.None?
        then (pre.(backupDir := pre.installDir), 1)
        else (Installed(archive.folder.value), 0)
  }

  /** When the injected fault is executed and no missing binary fails
      earlier, the script ends in the trap, from what the failing command
      leaves behind. */
  lemma ExpectedAtFault(pre: Fs, archive: Archive, fault: Fault)
    requires archive.isFile && archive.listable
    requires fault.FailAt? && Runs(pre, archive, fault.step)
    requires Index(fault.step) < Index(ChmodExec)
      || (archive.folder.Some? && BinaryName in archive.folder.value)
    ensures Failure(pre, archive, fault) == Some(fault.step)
    ensures Expected(pre, archive, fault)
      == (Trap(Partial(pre, Snapshot(pre, FolderOf(archive), fault.step), fault.step, fault.keep)), 1)
  {
  }

  /** Without an executed fault, a folder holding the binary is installed. */
  lemma ExpectedWithoutFault(pre: Fs, archive: Archive, fault: Fault)
    requires archive.isFile && archive.listable
    requires archive.folder.Some? && BinaryName in archive.folder.value
    requires !(fault.FailAt? && Runs(pre, archive, fault.step))
    ensures Failure(pre, archive, fault) == None
    ensures Expected(pre, archive, fault) == (Installed(archive.folder.value), 0)
  {
  }

  /** The menu entry launches the file the symlink points to. */
  lemma EntryLaunchesLinkTarget()
    ensures "Exec=" + LinkTarget in EntryLines(Config.InstallDir)
  {
    assert EntryLines(Config.InstallDir)[5] == "Exec=" + LinkTarget;
  }

  /** A missing or unlistable archive ends the script before anything is
      changed. */
  lemma InvalidArchiveChangesNothing(pre: Fs, archive: Archive, fault: Fault)
    requires !archive.isFile || !archive.listable
    ensures Expected(pre, archive, fault) == (pre, 1)
  {
  }

  /** The exit code is 0 exactly when the folder was found and no command
      failed, and the script never exits with anything but 0 or 1. */
  lemma ExitCodes(pre: Fs, archive: Archive, fault: Fault)
    ensures Expected(pre, archive, fault).1 in {0, 1}
    ensures Expected(pre, archive, fault).1 == 0 <==>
      archive.isFile && archive.listable && archive.folder.Some? && Failure(pre, archive, fault).None?
  {
  }

  /** After a successful run: the new tree with its menu entry is installed,
      the menu entry is published, the symlink names `/opt/discord/Discord`,
      and neither the backup nor the temporary directory is left. */
  lemma SuccessState(pre: Fs, archive: Archive, fault: Fault)
    requires Expected(pre, archive, fault).1 == 0
    ensures archive.folder.Some? && BinaryName in archive.folder.value
    ensures Expected(pre, archive, fault).0 == Fs(Some(WithEntry(archive.folder.value)), None, false,
      Some(Unlines(EntryLines(Config.InstallDir))), Some(Config.InstallDir + "/Discord"))
  {
    assert archive.isFile && archive.listable;
    assert Failure(pre, archive, fault).None?;
    assert LinkTarget == Config.InstallDir + "/Discord";
  }

  /** A backup exists after the run only if an installation existed before. */
  lemma BackupOnlyOfPriorInstall(pre: Fs, archive: Archive, fault: Fault)
    requires pre.backupDir.None?
    ensures Expected(pre, archive, fault).0.backupDir.Some? ==> pre.installDir.Some?
  {
  }

  /** A folder-less archive ends with the script's own `exit 1`, which skips
      the trap: the installation is untouched but the backup stays behind. */
  lemma NoFolderLeavesBackup(pre: Fs, archive: Archive)
    requires archive.isFile && archive.listable && archive.folder.None?
    ensures Expected(pre, archive, NoFault) == (pre.(backupDir := pre.installDir), 1)
  {
  }

  /** The gap between `rm -rf "$INSTALL_DIR"` and `mv`: when `mkdir -p` or
      `mv` fails during an upgrade, the trap finds no install directory and
      restores nothing. Discord is then not installed, and the old
      installation survives only in the backup. */
  lemma FailureBeforeMoveLosesInstall(pre: Fs, archive: Archive, s: Step)
    requires archive.isFile && archive.listable && archive.folder.Some?
    requires pre.installDir.Some?
    requires s == MakeParent || s == MoveFolder
    ensures Expected(pre, archive, FailAt(s, None)).0.installDir.None?
    ensures Expected(pre, archive, FailAt(s, None)).0.backupDir == pre.installDir
  {
  }

  /** During an upgrade, a failure after the new tree is in place restores the
      old installation, but the menu entry and the symlink already written
      stay. */
  lemma LateFailureRestoresUpgrade(pre: Fs, archive: Archive, fault: Fault)
    requires archive.isFile && archive.listable && archive.folder.Some?
    requires pre.installDir.Some?
    requires Failure(pre, archive, fault).Some?
    requires Index(ChmodExec) <= Index(Failure(pre, archive, fault).value) <= Index(RemoveTemp)
    ensures Expected(pre, archive, fault).0.installDir == pre.installDir
    ensures Expected(pre, archive, fault).0.backupDir.None?
    ensures Expected(pre, archive, fault).1 == 1
  {
  }

  /** On a first installation there is no backup, so a failure after the
      move leaves the new, partly configured tree in place. */
  lemma FirstInstallFailureKeepsNewTree(pre: Fs, archive: Archive, fault: Fault)
    requires archive.isFile && archive.listable && archive.folder.Some?
    requires pre.installDir.None?
    requires Failure(pre, archive, fault).Some?
    requires Index(ChmodExec) <= Index(Failure(pre, archive, fault).value)
    ensures Expected(pre, archive, fault).0.installDir.Some?
    ensures Expected(pre, archive, fault).1 == 1
  {
  }

  /** An archive whose `Discord` folder has no `Discord` file fails at
      `chmod +x`; on a first installation the folder stays installed. */
  lemma MissingBinaryOnFirstInstall(pre: Fs, archive: Archive)
    requires archive.isFile && archive.listable && archive.folder.Some?
    requires BinaryName !in archive.folder.value
    requires pre.installDir.None? && pre.backupDir.None?
    ensures Expected(pre, archive, NoFault) ==
      (pre.(installDir := archive.folder, tempDir := true), 1)
  {
    assert Failure(pre, archive, NoFault) == Some(ChmodExec);
  }

  /** A `cp -r` that fails part-way leaves a partial backup, and the trap
      then replaces the intact installation by that partial copy. */
  lemma PartialBackupReplacesInstall(pre: Fs, archive: Archive, keep: set<string>)
    requires archive.isFile && archive.listable
    requires pre.installDir.Some? && pre.backupDir.None?
    ensures Expected(pre, archive, FailAt(BackupCopy, Some(keep))).0.installDir
      == Leftover(pre.installDir, Some(keep))
    ensures Expected(pre, archive, FailAt(BackupCopy, Some(keep))).0.backupDir.None?
  {
  }

  /** A failure of the very last command, removing the backup, makes the
      trap replace the freshly installed tree by what is left of the backup,
      and the run is reported as failed. */
  lemma BackupRemovalFailureReverts(pre: Fs, archive: Archive, keep: set<string>)
    requires archive.isFile && archive.listable && archive.folder.Some?
    requires BinaryName in archive.folder.value
    requires pre.installDir.Some?
    ensures Expected(pre, archive, FailAt(RemoveBackup, Some(keep))) ==
      (Fs(Leftover(pre.installDir, Some(keep)), None, false, Some(EntryText), Some(LinkTarget)), 1)
  {
  }

  /** The trap never removes the temporary directory: every failure after
      `mktemp` leaves it behind. */
  lemma TrapLeavesTempDir(pre: Fs, archive: Archive, fault: Fault)
    requires archive.isFile && archive.listable
    requires Failure(pre, archive, fault).Some?
    requires Index(Extract) <= Index(Failure(pre, archive, fault).value) <= Index(RemoveTemp)
    ensures Expected(pre, archive, fault).0.tempDir
  {
  }

  /** `pkexec` passes the script's exit code on, and the installer reads it:
      a run is reported as a success exactly when the script succeeded, and
      a failing script is never mistaken for a refused authorization. */
  lemma ScriptOutcomeAsReported(pre: Fs, archive: Archive, fault: Fault)
    ensures var events := Installer.FinishEvents(Expected(pre, archive, fault).1);
      && |events| == 2
      && (events[1].success <==> Expected(pre, archive, fault).1 == 0)
      && events[1].message != Installer.Cancelled
  {
    Installer.FinishClassification(Expected(pre, archive, fault).1);
  }

  // ---------------------------------------------------------------------
  // The script, command by command

  class Host {
    var installDir: Option<Tree>
    var backupDir: Option<Tree>
    var tempDir: bool
    var desktopEntry: Option<string>
    var binLink: Option<string>

    function State(): Fs
      reads this
    {
      Fs(installDir, backupDir, tempDir, desktopEntry, binLink)
    }

    constructor (fs: Fs)
      ensures State() == fs
    {
      installDir := fs.installDir;
      backupDir := fs.backupDir;
      tempDir := fs.tempDir;
      desktopEntry := fs.desktopEntry;
      binLink := fs.binLink;
    }

    /** `cleanup_on_error`, ending with `exit 1`. */
    method CleanupOnError() returns (code: int)
      modifies this`installDir, this`backupDir
      ensures State() == Trap(old(State())) && code == 1
    {
      if backupDir.Some? && installDir.Some? {
        installDir := backupDir;
        backupDir := None;
      }
      code := 1;
    }

    /** Validation, backup, extraction and the folder search (steps 1 to 4).
        `done` when the script has exited. */
    method Prepare(archive: Archive, fault: Fault) returns (done: bool, code: int)
      requires backupDir.None? && !tempDir
      modifies this`installDir, this`backupDir, this`tempDir
      ensures done ==> (State(), code) == Expected(old(State()), archive, fault)
      ensures !done ==> archive.isFile && archive.listable && archive.folder.Some?
      ensures !done ==> State() == Snapshot(old(State()), archive.folder.value, RemoveOld)
      ensures !done ==> fault.FailAt? && Runs(old(State()), archive, fault.step) ==>
        Index(fault.step) >= Index(RemoveOld)
    {
      ghost var pre := State();
      if !archive.isFile || !archive.listable {
        return true, 1;
      }
      if installDir.Some? {
        if fault.FailAt? && fault.step == BackupCopy {
          ExpectedAtFault(pre, archive, fault);
          backupDir := Leftover(installDir, fault.keep);
          code := CleanupOnError();
          return true, code;
        }
        backupDir := installDir;
      }
      if fault.FailAt? && fault.step == MakeTemp {
        ExpectedAtFault(pre, archive, fault);
        code := CleanupOnError();
        return true, code;
      }
      tempDir := true;
      if fault.FailAt? && fault.step == Extract {
        ExpectedAtFault(pre, archive, fault);
        code := CleanupOnError();
        return true, code;
      }
      if archive.folder.None? {
        tempDir := false;
        return true, 1;
      }
      return false, 0;
    }

    /** Removing the old installation and moving the new tree in place
        (steps 5 and 6). */
    method Replace(ghost pre: Fs, archive: Archive, fault: Fault) returns (done: bool, code: int)
      requires archive.isFile && archive.listable && archive.folder.Some?
      requires State() == Snapshot(pre, archive.folder.value, RemoveOld)
      requires fault.FailAt? && Runs(pre, archive, fault.step) ==> Index(fault.step) >= Index(RemoveOld)
      modifies this`installDir, this`backupDir
      ensures done ==> (State(), code) == Expected(pre, archive, fault)
      ensures !done ==> State() == Snapshot(pre, archive.folder.value, ChmodExec)
      ensures !done ==> fault.FailAt? && Runs(pre, archive, fault.step) ==>
        Index(fault.step) >= Index(ChmodExec)
    {
      if installDir.Some? {
        if fault.FailAt? && fault.step == RemoveOld {
          ExpectedAtFault(pre, archive, fault);
          installDir := Leftover(installDir, fault.keep);
          code := CleanupOnError();
          return true, code;
        }
        installDir := None;
      }
      if fault.FailAt? && (fault.step == MakeParent || fault.step == MoveFolder) {
        ExpectedAtFault(pre, archive, fault);
        code := CleanupOnError();
        return true, code;
      }
      installDir := Some(archive.folder.value);
      return false, 0;
    }

    /** Setting the permissions of the new tree (step 7); `chmod +x` fails
        when the tree holds no `Discord` file. */
    method SetPermissions(ghost pre: Fs, archive: Archive, fault: Fault) returns (done: bool, code: int)
      requires archive.isFile && archive.listable && archive.folder.Some?
      requires State() == Snapshot(pre, archive.folder.value, ChmodExec)
      requires fault.FailAt? && Runs(pre, archive, fault.step) ==> Index(fault.step) >= Index(ChmodExec)
      modifies this`installDir, this`backupDir
      ensures done ==> (State(), code) == Expected(pre, archive, fault)
      ensures !done ==> State() == Snapshot(pre, archive.folder.value, WriteEntry)
      ensures !done ==> BinaryName in archive.folder.value
      ensures !done ==> fault.FailAt? && Runs(pre, archive, fault.step) ==>
        Index(fault.step) >= Index(WriteEntry)
    {
      if BinaryName !in archive.folder.value {
        assert Failure(pre, archive, fault) == Some(ChmodExec);
        code := CleanupOnError();
        return true, code;
      }
      if fault.FailAt? && (fault.step == ChmodExec || fault.step == ChmodTree) {
        ExpectedAtFault(pre, archive, fault);
        code := CleanupOnError();
        return true, code;
      }
      return false, 0;
    }

    /** Writing and installing the menu entry (steps 8 and 9, up to the
        `chmod 644`). */
    method PublishEntry(ghost pre: Fs, archive: Archive, fault: Fault) returns (done: bool, code: int)
      requires archive.isFile && archive.listable && archive.folder.Some?
      requires BinaryName in archive.folder.value
      requires State() == Snapshot(pre, archive.folder.value, WriteEntry)
      requires fault.FailAt? && Runs(pre, archive, fault.step) ==> Index(fault.step) >= Index(WriteEntry)
      modifies this`installDir, this`backupDir, this`desktopEntry
      ensures done ==> (State(), code) == Expected(pre, archive, fault)
      ensures !done ==> State() == Snapshot(pre, archive.folder.value, ChmodEntry)
      ensures !done ==> fault.FailAt? && Runs(pre, archive, fault.step) ==>
        Index(fault.step) >= Index(ChmodEntry)
    {
      if fault.FailAt? && fault.step == WriteEntry {
        ExpectedAtFault(pre, archive, fault);
        code := CleanupOnError();
        return true, code;
      }
      installDir := Some(WithEntry(archive.folder.value));
      if fault.FailAt? && (fault.step == MakeAppsDir || fault.step == CopyEntry) {
        ExpectedAtFault(pre, archive, fault);
        code := CleanupOnError();
        return true, code;
      }
      desktopEntry := Some(EntryText);
      return false, 0;
    }

    /** The entry's mode and the command symlink (steps 9 and 10). */
    method LinkBinary(ghost pre: Fs, archive: Archive, fault: Fault) returns (done: bool, code: int)
      requires archive.isFile && archive.listable && archive.folder.Some?
      requires BinaryName in archive.folder.value
      requires State() == Snapshot(pre, archive.folder.value, ChmodEntry)
      requires fault.FailAt? && Runs(pre, archive, fault.step) ==> Index(fault.step) >= Index(ChmodEntry)
      modifies this`installDir, this`backupDir, this`binLink
      ensures done ==> (State(), code) == Expected(pre, archive, fault)
      ensures !done ==> State() == Snapshot(pre, archive.folder.value, RemoveTemp)
      ensures !done ==> fault.FailAt? && Runs(pre, archive, fault.step) ==>
        Index(fault.step) >= Index(RemoveTemp)
    {
      if fault.FailAt? && (fault.step == ChmodEntry || fault.step == UnlinkOld) {
        ExpectedAtFault(pre, archive, fault);
        code := CleanupOnError();
        return true, code;
      }
      binLink := None;
      if fault.FailAt? && fault.step == Link {
        ExpectedAtFault(pre, archive, fault);
        code := CleanupOnError();
        return true, code;
      }
      binLink := Some(LinkTarget);
      return false, 0;
    }

    /** Removing the temporary directory and the backup (step 12). */
    method Finish(ghost pre: Fs, archive: Archive, fault: Fault) returns (code: int)
      requires archive.isFile && archive.listable && archive.folder.Some?
      requires BinaryName in archive.folder.value
      requires State() == Snapshot(pre, archive.folder.value, RemoveTemp)
      requires fault.FailAt? && Runs(pre, archive, fault.step) ==> Index(fault.step) >= Index(RemoveTemp)
      modifies this`installDir, this`backupDir, this`tempDir
      ensures (State(), code) == Expected(pre, archive, fault)
    {
      if fault.FailAt? && fault.step == RemoveTemp {
        ExpectedAtFault(pre, archive, fault);
        code := CleanupOnError();
        return;
      }
      tempDir := false;
      if backupDir.Some? {
        if fault.FailAt? && fault.step == RemoveBackup {
          ExpectedAtFault(pre, archive, fault);
          assert backupDir == pre.installDir;
          backupDir := Leftover(backupDir, fault.keep);
          code := CleanupOnError();
          return;
        }
        backupDir := None;
      }
      ExpectedWithoutFault(pre, archive, fault);
      return 0;
    }

    /** The whole script, from a state without a backup or a temporary
        directory of its own. */
    method Run(archive: Archive, fault: Fault) returns (code: int)
      requires backupDir.None? && !tempDir
      modifies this`installDir, this`backupDir, this`tempDir, this`desktopEntry, this`binLink
      ensures (State(), code) == Expected(old(State()), archive, fault)
    {
      ghost var pre := State();
      var done;
      done, code := Prepare(archive, fault);
      if done {
        return;
      }
      done, code := Replace(pre, archive, fault);
      if done {
        return;
      }
      done, code := SetPermissions(pre, archive, fault);
      if done {
        return;
      }
      done, code := PublishEntry(pre, archive, fault);
      if done {
        return;
      }
      done, code := LinkBinary(pre, archive, fault);
      if done {
        return;
      }
      code := Finish(pre, archive, fault);
    }
  }
}
