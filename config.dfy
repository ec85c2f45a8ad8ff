/** The fixed configuration of the installer (class `Config` and the paths the
    installation script hard-codes). */
module Config {
  const InstallDir: string := "/opt/discord"
  const AltInstallDir: string := "/usr/share/discord"
  const DesktopFileDir: string := "/usr/share/applications"
  const DesktopFile: string := "/usr/share/applications/discord.desktop"
  const BinSymlink: string := "/usr/local/bin/discord"

  /** Free space the installer demands on the install filesystem: 500 MiB. */
  const RequiredSpace: nat := 500 * 1024 * 1024
  const MiB: nat := 1024 * 1024

  /** Milliseconds after the start of the installation process at which its
      timeout fires: five minutes. */
  const ProcessTimeout: nat := 300000
}
