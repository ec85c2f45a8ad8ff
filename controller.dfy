/** The decisions of `DiscordInstallerUI` with the widgets taken away: the
    fields the window keeps (`tar_file`, `tar_size`, `installed_version`,
    `latest_version`, `download_mode`), the main button's text and enabled
    state, and the actions it starts (a download, an installation, an error
    dialog, closing the window). Dialog answers and system probes are
    inputs. */
module Controller {
  import opened Wrappers
  import SystemUtils
  import Installer

  datatype Mode = Auto | Manual

  /** What the window does besides updating its fields. */
  datatype UiAction =
    | ShowError(title: string, message: string)
    | StartDownload
    | StartInstall(path: string)
    | CloseWindow

  /** The answers of the probes a scan runs. */
  datatype Probe = Probe(
    roots: seq<SystemUtils.InstallRoot>,
    hasPkexec: bool,
    space: Installer.SpaceProbe,
    online: bool,
    downloadDir: string,
    listing: Option<seq<Installer.DirEntry>>)

  /** The window's decision fields. */
  datatype View = View(
    tarFile: Option<string>,
    tarSize: nat,
    installedVersion: Option<string>,
    latestVersion: Option<string>,
    mode: Mode,
    buttonText: string,
    buttonEnabled: bool)

  const Cancelled: string := "CANCELLED"

  /** Python truthiness of an optional string: present and non-empty. */
  predicate Truthy(s: Option<string>) {
    s.Some? && s.value != ""
  }

  function AutoLabel(installed: Option<string>): string {
    if Truthy(installed) then "ACTUALIZAR" else "DESCARGAR E INSTALAR"
  }

  function ManualLabel(installed: Option<string>): string {
    (if Truthy(installed) then "ACTUALIZAR" else "INSTALAR") + " DISCORD"
  }

  function Compatible(p: Probe): bool {
    Installer.ValidateInstallationRequirements(p.hasPkexec, p.space).0
  }

  function Found(p: Probe): Option<(string, nat)> {
    Installer.FindDiscordTar(p.downloadDir, p.listing)
  }

  /** Whether a scan in `mode` ends with something to do. */
  predicate Ready(mode: Mode, p: Probe) {
    Compatible(p) && (if mode.Auto? then p.online else Found(p).Some?)
  }

  // ---------------------------------------------------------------------
  // The handlers, as functions of the fields and their inputs

  /** `_initial_scan` with `_scan_auto_mode` or `_scan_manual_mode`. */
  function Scan(v: View, p: Probe): (View, seq<UiAction>) {
    var installed := SystemUtils.GetInstalledVersion(p.roots);
    var check := Installer.ValidateInstallationRequirements(p.hasPkexec, p.space);
    var base := v.(tarFile := None, latestVersion := None, installedVersion := installed);
    if !check.0 then
      (base.(buttonText := "SISTEMA NO COMPATIBLE"), [ShowError("Sistema no compatible", check.1)])
    else if v.mode.Auto? then
      if !p.online then (base.(buttonText := "SIN INTERNET"), [])
      else (base.(buttonText := AutoLabel(installed), buttonEnabled := true), [])
    else
      match Found(p)
      case None => (base.(buttonText := "ARCHIVO NO ENCONTRADO"), [])
      case Some(found) =>
        (base.(tarFile := Some(found.0), tarSize := found.1,
               buttonText := ManualLabel(installed), buttonEnabled := true), [])
  }

  /** `_on_install_clicked`, with `confirmed` the answer to the confirmation
      dialog. */
  function Click(v: View, confirmed: bool): (View, seq<UiAction>) {
    if v.mode.Auto? && !Truthy(v.tarFile) then (v.(buttonEnabled := false), [StartDownload])
    else if Truthy(v.tarFile) then
      if confirmed then (v.(buttonEnabled := false), [StartInstall(v.tarFile.value)]) else (v, [])
    else (v, [ShowError("Error", "No hay archivo para instalar")])
  }

  /** `_on_download_completed`, with `proceed` the answer to "install now?". */
  function DownloadDone(v: View, success: bool, filepath: string, error: string, proceed: bool)
    : (View, seq<UiAction>)
  {
    if error == Cancelled then (v.(buttonText := "DESCARGAR E INSTALAR", buttonEnabled := true), [])
    else if success && filepath != "" then
      if proceed then (v.(tarFile := Some(filepath), buttonEnabled := false), [StartInstall(filepath)])
      else (v.(tarFile := Some(filepath), buttonText := "INSTALAR DISCORD", buttonEnabled := true), [])
    else (v.(buttonText := "REINTENTAR DESCARGA", buttonEnabled := true), [ShowError("Error de descarga", error)])
  }

  /** `_on_installation_completed`. */
  function InstallDone(v: View, success: bool, message: string): (View, seq<UiAction>) {
    if message == Cancelled then (v.(buttonText := "INSTALAR DISCORD", buttonEnabled := true), [])
    else if success then (v, [CloseWindow])
    else (v.(buttonText := "REINTENTAR", buttonEnabled := true), [ShowError("Error de instalación", message)])
  }

  // ---------------------------------------------------------------------
  // Properties of the decision table

  /** A scan never disables the button: it enables it exactly when there is
      something to do, and otherwise leaves it as it was, so a button enabled
      by an earlier scan stays clickable under "SISTEMA NO COMPATIBLE",
      "SIN INTERNET" or "ARCHIVO NO ENCONTRADO". */
  lemma ScanNeverDisables(v: View, p: Probe)
    ensures Scan(v, p).0.buttonEnabled == (v.buttonEnabled || Ready(v.mode, p))
  {
  }

  /** A scan forgets the previous archive and latest version; only a
      successful manual scan selects the archive `find_discord_tar` found.
      The installed version is re-read whatever the outcome. */
  lemma ScanSelection(v: View, p: Probe)
    ensures Scan(v, p).0.latestVersion.None?
    ensures Scan(v, p).0.installedVersion == SystemUtils.GetInstalledVersion(p.roots)
    ensures Scan(v, p).0.tarFile ==
      (if v.mode.Manual? && Ready(v.mode, p) then Some(Found(p).value.0) else None)
    ensures Scan(v, p).0.mode == v.mode
  {
  }

  /** A ready scan offers an update exactly when some version is installed. */
  lemma ScanOffersUpdate(v: View, p: Probe)
    requires Ready(v.mode, p)
    ensures var text := Scan(v, p).0.buttonText;
      (text == "ACTUALIZAR" || text == "ACTUALIZAR DISCORD")
      <==> Truthy(SystemUtils.GetInstalledVersion(p.roots))
  {
    var text := Scan(v, p).0.buttonText;
    if v.mode.Manual? && !Truthy(SystemUtils.GetInstalledVersion(p.roots)) {
      assert text == "INSTALAR DISCORD";
      assert text[0] != "ACTUALIZAR DISCORD"[0];
    }
  }

  /** Only an incompatible system makes a scan show a dialog. */
  lemma ScanErrorOnlyWhenIncompatible(v: View, p: Probe)
    ensures Scan(v, p).1 != [] <==> !Compatible(p)
    ensures !Compatible(p) ==>
      Scan(v, p).1 == [ShowError("Sistema no compatible", Installer.ValidateInstallationRequirements(p.hasPkexec, p.space).1)]
  {
  }

  /** A click starts at most one thing, and disables the button exactly when
      it does. */
  lemma ClickStartsAtMostOne(v: View, confirmed: bool)
    ensures |Click(v, confirmed).1| <= 1
    ensures var r := Click(v, confirmed);
      r.0.buttonEnabled == (v.buttonEnabled && (r.1 == [] || r.1[0].ShowError?))
    ensures Click(v, confirmed).0.tarFile == v.tarFile
  {
  }

  /** After a ready automatic scan the button downloads, never installs a
      stale archive; after a ready manual scan a confirmed click installs
      exactly the archive that was found. */
  lemma ScanThenClick(v: View, p: Probe)
    requires Ready(v.mode, p)
    ensures v.mode.Auto? ==> Click(Scan(v, p).0, true).1 == [StartDownload]
    ensures v.mode.Manual? ==> Click(Scan(v, p).0, true).1 == [StartInstall(Found(p).value.0)]
  {
    if v.mode.Manual? {
      var path := Found(p).value.0;
      assert path == p.downloadDir + "/" + p.listing.value[Installer.Newest(p.listing.value).value].name;
      assert path[|p.downloadDir|] == '/';
    }
  }

  /** How the window reacts to the completion signal `_on_process_finished`
      emits for an exit code: it closes exactly after exit 0, offers
      "INSTALAR DISCORD" again exactly after 126 or 127, and otherwise
      shows the failure and offers "REINTENTAR"; the button is re-enabled
      after every exit but 0. */
  lemma ReactionToExitCode(v: View, exitCode: int)
    ensures var e := Installer.FinishEvents(exitCode)[1];
      var r := InstallDone(v, e.success, e.message);
      && (r.1 == [CloseWindow] <==> exitCode == 0)
      && (exitCode != 0 ==> r.0.buttonEnabled)
      && (exitCode == 0 ==> r.0 == v)
      && (exitCode != 0 ==> (r.0.buttonText == "INSTALAR DISCORD" <==> exitCode == 126 || exitCode == 127))
      && (exitCode != 0 && exitCode != 126 && exitCode != 127 ==> r.0.buttonText == "REINTENTAR")
  {
    Installer.FinishClassification(exitCode);
    if exitCode != 0 && exitCode != 126 && exitCode != 127 {
      assert "REINTENTAR"[0] != "INSTALAR DISCORD"[0];
    }
  }

  /** A timeout followed by the killed process's exit makes the window
      report two failures, one after the other. */
  lemma TimeoutThenExitReportsTwice(v: View, exitCode: int)
    requires exitCode != 0 && exitCode != 126 && exitCode != 127
    ensures var first := InstallDone(v, false, Installer.TimedOut);
      var second := InstallDone(first.0, false, Installer.FinishEvents(exitCode)[1].message);
      first.1 + second.1 == [ShowError("Error de instalación", Installer.TimedOut),
                             ShowError("Error de instalación", Installer.Failed)]
  {
  }

  /** A completed download is remembered as the archive even when the user
      declines to install it now, so the next click confirms it instead of
      downloading again. */
  lemma DeclinedDownloadKeptForClick(v: View, filepath: string, error: string)
    requires filepath != "" && error != Cancelled
    ensures var r := DownloadDone(v, true, filepath, error, false);
      r.0.tarFile == Some(filepath) && r.0.buttonEnabled
      && Click(r.0, true).1 == [StartInstall(filepath)]
  {
  }

  // ---------------------------------------------------------------------
  // The window

  class InstallerWindow {
    var tarFile: Option<string>
    var tarSize: nat
    var installedVersion: Option<string>
    var latestVersion: Option<string>
    var mode: Mode
    var buttonText: string
    var buttonEnabled: bool
    /** Actions taken so far, in order. */
    var actions: seq<UiAction>

    function ViewOf(): View
      reads this
    {
      View(tarFile, tarSize, installedVersion, latestVersion, mode, buttonText, buttonEnabled)
    }

    /** `__init__`: nothing selected, automatic mode, and the button
        "BUSCANDO..." disabled until the first scan. */
    constructor ()
      ensures ViewOf() == View(None, 0, None, None, Auto, "BUSCANDO...", false)
      ensures actions == []
    {
      tarFile := None;
      tarSize := 0;
      installedVersion := None;
      latestVersion := None;
      mode := Auto;
      buttonText := "BUSCANDO...";
      buttonEnabled := false;
      actions := [];
    }

    /** `_scan_auto_mode`, given whether `discord.com` answers. */
    method ScanAutoMode(online: bool)
      modifies this`buttonText, this`buttonEnabled
      ensures buttonText == (if online then AutoLabel(installedVersion) else "SIN INTERNET")
      ensures buttonEnabled == (old(buttonEnabled) || online)
    {
      if !online {
        buttonText := "SIN INTERNET";
        return;
      }
      buttonText := AutoLabel(installedVersion);
      buttonEnabled := true;
    }

    /** `_scan_manual_mode`. */
    method ScanManualMode(downloadDir: string, listing: Option<seq<Installer.DirEntry>>)
      modifies this`tarFile, this`tarSize, this`buttonText, this`buttonEnabled
      ensures var found := Installer.FindDiscordTar(downloadDir, listing);
        && (found.Some? ==> tarFile == Some(found.value.0) && tarSize == found.value.1
                            && buttonText == ManualLabel(installedVersion) && buttonEnabled)
        && (found.None? ==> tarFile == old(tarFile) && tarSize == old(tarSize)
                            && buttonText == "ARCHIVO NO ENCONTRADO" && buttonEnabled == old(buttonEnabled))
    {
      var result := Installer.FindDiscordTar(downloadDir, listing);
      if result.Some? {
        tarFile := Some(result.value.0);
        tarSize := result.value.1;
        buttonText := ManualLabel(installedVersion);
        buttonEnabled := true;
      } else {
        buttonText := "ARCHIVO NO ENCONTRADO";
      }
    }

    /** `_initial_scan`. */
    method InitialScan(p: Probe)
      modifies this`tarFile, this`tarSize, this`installedVersion, this`latestVersion,
        this`buttonText, this`buttonEnabled, this`actions
      ensures ViewOf() == Scan(old(ViewOf()), p).0
      ensures actions == old(actions) + Scan(old(ViewOf()), p).1
    {
      tarFile := None;
      latestVersion := None;
      installedVersion := SystemUtils.GetInstalledVersion(p.roots);
      var check := Installer.ValidateInstallationRequirements(p.hasPkexec, p.space);
      if !check.0 {
        actions := actions + [ShowError("Sistema no compatible", check.1)];
        buttonText := "SISTEMA NO COMPATIBLE";
        return;
      }
      if mode == Auto {
        ScanAutoMode(p.online);
      } else {
        ScanManualMode(p.downloadDir, p.listing);
      }
    }

    /** `_on_mode_changed` followed by the rescan it schedules. */
    method OnModeChanged(autoChecked: bool, p: Probe)
      modifies this
      ensures mode == (if autoChecked then Auto else Manual)
      ensures ViewOf() == Scan(old(ViewOf()).(mode := mode), p).0
      ensures actions == old(actions) + Scan(old(ViewOf()).(mode := mode), p).1
    {
      mode := if autoChecked then Auto else Manual;
      InitialScan(p);
    }

    /** `_start_installation(filepath)`: the button is disabled and the
        installer started. */
    method StartInstallation(path: string)
      modifies this`buttonEnabled, this`actions
      ensures !buttonEnabled && actions == old(actions) + [StartInstall(path)]
    {
      buttonEnabled := false;
      actions := actions + [StartInstall(path)];
    }

    /** `_on_install_clicked`, with `confirmed` the answer to
        `_confirm_installation`. */
    method OnInstallClicked(confirmed: bool)
      modifies this`buttonEnabled, this`actions
      ensures ViewOf() == Click(old(ViewOf()), confirmed).0
      ensures actions == old(actions) + Click(old(ViewOf()), confirmed).1
    {
      if mode == Auto && !(tarFile.Some? && tarFile.value != "") {
        // _start_download
        buttonEnabled := false;
        actions := actions + [StartDownload];
      } else if tarFile.Some? && tarFile.value != "" {
        if confirmed {
          StartInstallation(tarFile.value);
        }
      } else {
        actions := actions + [ShowError("Error", "No hay archivo para instalar")];
      }
    }

    /** `_on_version_detected`. */
    method OnVersionDetected(version: string)
      modifies this`latestVersion
      ensures latestVersion == Some(version)
    {
      latestVersion := Some(version);
    }

    /** `_on_download_completed`, followed by `_proceed_with_installation`
        when the download succeeded; `proceed` is the dialog's answer. */
    method OnDownloadCompleted(success: bool, filepath: string, error: string, proceed: bool)
      modifies this`tarFile, this`buttonText, this`buttonEnabled, this`actions
      ensures ViewOf() == DownloadDone(old(ViewOf()), success, filepath, error, proceed).0
      ensures actions == old(actions) + DownloadDone(old(ViewOf()), success, filepath, error, proceed).1
    {
      if error == Cancelled {
        buttonText := "DESCARGAR E INSTALAR";
        buttonEnabled := true;
        return;
      }
      if success && filepath != "" {
        tarFile := Some(filepath);
        if proceed {
          StartInstallation(filepath);
        } else {
          buttonText := "INSTALAR DISCORD";
          buttonEnabled := true;
        }
      } else {
        actions := actions + [ShowError("Error de descarga", error)];
        buttonText := "REINTENTAR DESCARGA";
        buttonEnabled := true;
      }
    }

    /** `_on_installation_completed`. */
    method OnInstallationCompleted(success: bool, message: string)
      modifies this`buttonText, this`buttonEnabled, this`actions
      ensures ViewOf() == InstallDone(old(ViewOf()), success, message).0
      ensures actions == old(actions) + InstallDone(old(ViewOf()), success, message).1
    {
      if message == Cancelled {
        buttonText := "INSTALAR DISCORD";
        buttonEnabled := true;
        return;
      }
      if success {
        actions := actions + [CloseWindow];
      } else {
        actions := actions + [ShowError("Error de instalación", message)];
        buttonText := "REINTENTAR";
        buttonEnabled := true;
      }
    }
  }
}
