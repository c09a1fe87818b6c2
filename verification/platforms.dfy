/** Parameter normalisation of `my_build_game_step`: the target platform is
    validated case-insensitively, the build host architecture selects the
    Docker build arguments, and the platform selects the Godot export label
    and the export paths. */
module Platforms {
  import opened Results
  import opened Steps
  import Text

  /** The lower-cased platform names the pipeline accepts. */
  const AcceptedPlatforms: seq<string> := ["macos", "linux", "windows"]

  const PlatformError := "Platform must be 'macos', 'windows' or 'Linux'"

  const GodotVersion := "4.4.1"

  /** The parameter defaults of `my_build_game_step`. */
  const DefaultArch := "arm64"
  const DefaultPlatform := "macOS"

  const ExportRoot := "/export_build/"
  const ArtifactFile := "/MYGAME.zip"

  /** Lower-cases the platform and accepts it iff it then names one of the
      three recognised platforms; the result is the lower-cased name. */
  function NormalizePlatform(platform: string): (r: Result<string>)
    ensures r.Ok? <==>
      || Text.EqualIgnoringCase(platform, "macos")
      || Text.EqualIgnoringCase(platform, "linux")
      || Text.EqualIgnoringCase(platform, "windows")
    ensures r.Ok? ==> r.value in AcceptedPlatforms && Text.EqualIgnoringCase(platform, r.value)
    ensures r.Err? ==> r.error == InvalidPlatform(PlatformError)
  {
    Text.LowerMatchesIgnoringCase(platform, "macos");
    Text.LowerMatchesIgnoringCase(platform, "linux");
    Text.LowerMatchesIgnoringCase(platform, "windows");
    var lower := Text.Lower(platform);
    if lower !in AcceptedPlatforms then Err(InvalidPlatform(PlatformError)) else Ok(lower)
  }

  /** Validation does not depend on case: platforms that differ only in case
      are accepted or rejected together, and normalise to the same name. */
  lemma NormalizeIgnoresCase(p: string, q: string)
    requires Text.EqualIgnoringCase(p, q)
    ensures NormalizePlatform(p) == NormalizePlatform(q)
  {
    Text.LowerIgnoresCase(p, q);
  }

  /** The default platform "macOS" is accepted as "macos". */
  lemma DefaultPlatformAccepted()
    ensures NormalizePlatform(DefaultPlatform) == Ok("macos")
  {
    assert Text.EqualIgnoringCase(DefaultPlatform, "macos");
    Text.LowerMatchesIgnoringCase(DefaultPlatform, "macos");
  }

  /** The build arguments for the build host architecture. The source assigns
      them in two separate `if`s, so any other architecture leaves them
      unassigned. The comparison is case-sensitive. */
  function BuildArgsFor(arch: string): (r: Option<seq<BuildArg>>)
    ensures r.Some? <==> arch == "x86_64" || arch == "arm64"
    ensures r.Some? ==> r.value == [
        BuildArg("GODOT_VERSION", GodotVersion),
        BuildArg("GODOT_PLATFORM", "linux." + arch),
        BuildArg("GODOT_ZIP_PLATFORM", "linux_" + arch)
      ]
  {
    assert "linux." + "x86_64" == "linux.x86_64" && "linux_" + "x86_64" == "linux_x86_64";
    assert "linux." + "arm64" == "linux.arm64" && "linux_" + "arm64" == "linux_arm64";
    if arch == "x86_64" then
      Some([ BuildArg("GODOT_VERSION", GodotVersion),
             BuildArg("GODOT_PLATFORM", "linux.x86_64"),
             BuildArg("GODOT_ZIP_PLATFORM", "linux_x86_64") ])
    else if arch == "arm64" then
      Some([ BuildArg("GODOT_VERSION", GodotVersion),
             BuildArg("GODOT_PLATFORM", "linux.arm64"),
             BuildArg("GODOT_ZIP_PLATFORM", "linux_arm64") ])
    else None
  }

  /** The Godot export preset name for a lower-cased platform; None stands
      for the source's final `else`, which no validated platform reaches. */
  function ExportLabel(platformLower: string): (r: Option<string>)
    ensures r.Some? <==> platformLower in AcceptedPlatforms
    ensures platformLower == "macos" ==> r == Some("macOS")
    ensures platformLower == "windows" ==> r == Some("Windows Desktop")
    ensures platformLower == "linux" ==> r == Some("Linux")
  {
    if platformLower == "macos" then Some("macOS")
    else if platformLower == "windows" then Some("Windows Desktop")
    else if platformLower == "linux" then Some("Linux")
    else None
  }

  /** Every platform that passes validation has a label. */
  lemma ExportLabelTotal(platform: string)
    requires NormalizePlatform(platform).Ok?
    ensures ExportLabel(NormalizePlatform(platform).value).Some?
  {
  }

  /** Distinct platforms get distinct labels. */
  lemma ExportLabelInjective(a: string, b: string)
    requires ExportLabel(a).Some? && ExportLabel(a) == ExportLabel(b)
    ensures a == b
  {
  }

  function ExportDir(platformLower: string): string {
    ExportRoot + platformLower
  }

  function ExportPath(platformLower: string): string {
    ExportDir(platformLower) + ArtifactFile
  }

  /** Recovers the platform from an export path: the inverse of ExportPath. */
  function PlatformOfExportPath(path: string): (r: Option<string>)
    ensures r.Some? ==> ExportPath(r.value) == path
  {
    if |path| >= |ExportRoot| + |ArtifactFile|
       && path[..|ExportRoot|] == ExportRoot
       && path[|path| - |ArtifactFile|..] == ArtifactFile
    then
      var p := path[|ExportRoot|..|path| - |ArtifactFile|];
      assert path == ExportRoot + p + ArtifactFile;
      Some(p)
    else None
  }

  /** The export path determines the platform, so distinct platforms never
      share an export path. */
  lemma ExportPathRoundTrip(platformLower: string)
    ensures PlatformOfExportPath(ExportPath(platformLower)) == Some(platformLower)
  {
    var path := ExportPath(platformLower);
    assert path[..|ExportRoot|] == ExportRoot;
    assert path[|path| - |ArtifactFile|..] == ArtifactFile;
    assert path[|ExportRoot|..|path| - |ArtifactFile|] == platformLower;
  }

  /** The export file lies directly inside the export directory. */
  lemma ExportPathInsideExportDir(platformLower: string)
    ensures var dir := ExportDir(platformLower);
      var path := ExportPath(platformLower);
      && |dir| < |path|
      && path[..|dir|] == dir
      && path[|dir|] == '/'
      && '/' !in path[|dir| + 1..]
  {
    var dir := ExportDir(platformLower);
    var path := ExportPath(platformLower);
    assert path[|dir|..] == ArtifactFile;
  }

  /** "Windows" is accepted as "windows". */
  lemma WindowsAccepted()
    ensures NormalizePlatform("Windows") == Ok("windows")
  {
    assert Text.EqualIgnoringCase("Windows", "windows");
    Text.LowerMatchesIgnoringCase("Windows", "windows");
  }

  /** The build arguments of an arm64 build host. */
  lemma Arm64Args()
    ensures BuildArgsFor("arm64") == Some(Arm64BuildArgs)
  {
  }

  const Arm64BuildArgs := [
    BuildArg("GODOT_VERSION", "4.4.1"),
    BuildArg("GODOT_PLATFORM", "linux.arm64"),
    BuildArg("GODOT_ZIP_PLATFORM", "linux_arm64")
  ]

  /** The export directory and file of the windows platform. */
  lemma WindowsPaths()
    ensures ExportDir("windows") == "/export_build/windows"
    ensures ExportPath("windows") == "/export_build/windows/MYGAME.zip"
    ensures ExportLabel("windows") == Some("Windows Desktop")
  {
  }

  /** The export directory and file of the macos platform. */
  lemma MacosPaths()
    ensures ExportDir("macos") == "/export_build/macos"
    ensures ExportPath("macos") == "/export_build/macos/MYGAME.zip"
  {
  }
}
