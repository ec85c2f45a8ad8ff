/** `SystemUtils.get_installed_version`: which Discord is installed, read from
    the install roots in a fixed order. The filesystem and the JSON parser are
    replaced by what they report for each root. */
module SystemUtils {
  import opened Wrappers

  /** The `version` entry of a parsed `build_info.json` object: absent, JSON
      `null`, or a string. */
  datatype VersionField = Missing | Null | Text(s: string)

  /** `<root>/resources/build_info.json`: no such file, a file that cannot be
      opened or parsed into an object, or a parsed object. */
  datatype BuildInfo = NoFile | Unreadable | Parsed(version: VersionField)

  /** What the probe sees under one install root. */
  datatype InstallRoot = InstallRoot(buildInfo: BuildInfo, hasBinary: bool)

  const UnknownVersion: string := "Desconocida"
  const PresentOnly: string := "Instalado"

  predicate Readable(root: InstallRoot) {
    root.buildInfo.Parsed?
  }

  /** `data.get('version', 'Desconocida')`; JSON `null` comes back as None. */
  function FieldValue(v: VersionField): Option<string> {
    match v
    case Missing => Some(UnknownVersion)
    case Null => None
    case Text(s) => Some(s)
  }

  /** Index of the first root whose metadata could be read. */
  function FirstReadable(roots: seq<InstallRoot>): (r: Option<nat>)
    ensures r.Some? ==> r.value < |roots| && Readable(roots[r.value])
    ensures r.Some? ==> forall j :: 0 <= j < r.value ==> !Readable(roots[j])
    ensures r.None? ==> forall j :: 0 <= j < |roots| ==> !Readable(roots[j])
  {
    if roots == [] then None
    else if Readable(roots[0]) then Some(0)
    else
      var rest := FirstReadable(roots[1..]);
      if rest.Some? then Some(rest.value + 1) else None
  }

  /** Whether some root holds the `Discord` binary. */
  function AnyBinary(roots: seq<InstallRoot>): (r: bool)
    ensures r <==> exists j :: 0 <= j < |roots| && roots[j].hasBinary
  {
    if roots == [] then false
    else roots[0].hasBinary || AnyBinary(roots[1..])
  }

  /** `get_installed_version` over the roots in probing order (the model's
      callers pass `/opt/discord` then `/usr/share/discord`). The first
      readable metadata decides, whatever it says; only when no root has
      readable metadata does the presence of a binary give "Instalado". */
  function GetInstalledVersion(roots: seq<InstallRoot>): (r: Option<string>)
    ensures forall i ::
      (0 <= i < |roots| && Readable(roots[i]) && (forall j :: 0 <= j < i ==> !Readable(roots[j])))
      ==> r == FieldValue(roots[i].buildInfo.version)
    ensures (forall i :: 0 <= i < |roots| ==> !Readable(roots[i])) ==>
      r == (if exists j :: 0 <= j < |roots| && roots[j].hasBinary then Some(PresentOnly) else None)
  {
    match FirstReadable(roots)
    case Some(i) => FieldValue(roots[i].buildInfo.version)
    case None => if AnyBinary(roots) then Some(PresentOnly) else None
  }

  /** Readable metadata under the first root hides everything under the
      second, even a JSON `null` that yields "not installed" while a binary is
      present. */
  lemma PrimaryRootWins(primary: InstallRoot, alt: InstallRoot)
    requires Readable(primary)
    ensures GetInstalledVersion([primary, alt]) == FieldValue(primary.buildInfo.version)
  {
  }

  /** A JSON `null` version reports no installation even with the binary in
      place. */
  lemma NullVersionHidesBinary(alt: InstallRoot)
    ensures GetInstalledVersion([InstallRoot(Parsed(Null), true), alt]) == None
  {
    PrimaryRootWins(InstallRoot(Parsed(Null), true), alt);
  }
}
