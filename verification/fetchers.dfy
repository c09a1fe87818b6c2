/** The two addon fetchers, `_install_from_zip_url` and
    `_install_from_git_repo`, as functions that append their commands to a
    container. Both copy into the path "addons", relative to the working
    directory; the `addons_path` they are handed is never used. */
module Fetchers {
  import opened Steps
  import Text

  const TempZip := "/tmp/download.zip"
  const TempExtract := "/tmp/extract"
  const TempRepo := "/tmp/repo"

  /** The relative destination of every addon copy. */
  const CopyTarget := "addons"

  /** The characters `lstrip('./')` removes. */
  const StripChars: set<char> := {'.', '/'}

  /** The folder of the unpacked archive that is copied. */
  function ExtractedFolder(folderInside: string): string {
    TempExtract + "/" + folderInside
  }

  /** Downloads the archive, unpacks it, checks the named folder exists,
      copies it into "addons" and removes the temporary files last. */
  function InstallFromZipUrl(c: seq<Step>, url: string, folderInside: string, addonsPath: string): (r: seq<Step>)
    ensures Extends(c, r) && |r| == |c| + 7
    ensures Disciplined(r[|c|..], CopyTarget)
    ensures CopiedSources(r[|c|..]) == [ExtractedFolder(folderInside)]
    ensures r[|c|] == Run(["mkdir", "-p", TempExtract])
    ensures r[|c| + 1] == Run(["wget", "-O", TempZip, url])
    ensures r[|c| + 2] == Run(["unzip", "-q", TempZip, "-d", TempExtract])
    ensures r[|c| + 3] == Guard(ExtractedFolder(folderInside))
    ensures r[|c| + 4] == Run(["cp", "-r", ExtractedFolder(folderInside), CopyTarget])
    ensures r[|c| + 5] == Run(["ls", "-la", CopyTarget])
    ensures r[|r| - 1] == Run(["rm", "-rf", TempZip, TempExtract])
  {
    var sourceFolder := ExtractedFolder(folderInside);
    var pre := [
      Run(["mkdir", "-p", TempExtract]),
      Run(["wget", "-O", TempZip, url]),
      Run(["unzip", "-q", TempZip, "-d", TempExtract])
    ];
    var post := [
      Run(["ls", "-la", CopyTarget]),
      Run(["rm", "-rf", TempZip, TempExtract])
    ];
    GuardedCopyDisciplined(pre, sourceFolder, CopyTarget, post);
    var added := pre + [Guard(sourceFolder), Run(["cp", "-r", sourceFolder, CopyTarget])] + post;
    assert (c + added)[|c|..] == added;
    c + added
  }

  /** `"/tmp/repo/" + source_path.lstrip('./')`: the clone-relative path with
      every leading '.' and '/' removed, not just a "./" prefix. */
  function SourceFullPath(sourcePath: string): (p: string)
    ensures |TempRepo| + 1 <= |p| && p[..|TempRepo| + 1] == TempRepo + "/"
    ensures var rest := p[|TempRepo| + 1..];
      && |rest| <= |sourcePath|
      && rest == sourcePath[|sourcePath| - |rest|..]
      && (forall i :: 0 <= i < |sourcePath| - |rest| ==> sourcePath[i] in StripChars)
      && (rest == [] || rest[0] !in StripChars)
  {
    var stripped := Text.LStrip(sourcePath, StripChars);
    assert (TempRepo + "/" + stripped)[|TempRepo| + 1..] == stripped;
    TempRepo + "/" + stripped
  }

  /** `source_path.split('/')[-1]`, which the source only logs. */
  function AddonName(sourcePath: string): string {
    Text.LastSegment(sourcePath, '/')
  }

  /** Removes any stale clone, clones the branch, checks the source path
      exists, copies it into "addons" and removes the clone last. */
  function InstallFromGitRepo(c: seq<Step>, repoUrl: string, branch: string, sourcePath: string, addonsPath: string): (r: seq<Step>)
    ensures Extends(c, r) && |r| == |c| + 6
    ensures Disciplined(r[|c|..], CopyTarget)
    ensures CopiedSources(r[|c|..]) == [SourceFullPath(sourcePath)]
    ensures r[|c|] == r[|r| - 1] == Run(["rm", "-rf", TempRepo])
    ensures r[|c| + 1] == Run(["git", "clone", "--branch", branch, "--single-branch", repoUrl, TempRepo])
    ensures r[|c| + 2] == Guard(SourceFullPath(sourcePath))
    ensures r[|c| + 3] == Run(["cp", "-r", SourceFullPath(sourcePath), CopyTarget])
    ensures r[|c| + 4] == Run(["ls", "-la", CopyTarget])
  {
    var fullPath := SourceFullPath(sourcePath);
    var pre := [
      Run(["rm", "-rf", TempRepo]),
      Run(["git", "clone", "--branch", branch, "--single-branch", repoUrl, TempRepo])
    ];
    var post := [
      Run(["ls", "-la", CopyTarget]),
      Run(["rm", "-rf", TempRepo])
    ];
    GuardedCopyDisciplined(pre, fullPath, CopyTarget, post);
    var added := pre + [Guard(fullPath), Run(["cp", "-r", fullPath, CopyTarget])] + post;
    assert (c + added)[|c|..] == added;
    c + added
  }

  /** Neither fetcher depends on the `addons_path` it is passed. */
  lemma FetchersIgnoreAddonsPath(c: seq<Step>, a: string, b: string, x: string, y: string, z: string)
    ensures InstallFromZipUrl(c, x, y, a) == InstallFromZipUrl(c, x, y, b)
    ensures InstallFromGitRepo(c, x, y, z, a) == InstallFromGitRepo(c, x, y, z, b)
  {
  }

  /** A leading "./" makes no difference: "./addons/x" and "addons/x" give
      the same clone path. */
  lemma DotSlashPrefixIgnored(sourcePath: string)
    ensures SourceFullPath("./" + sourcePath) == SourceFullPath(sourcePath)
  {
    var s := "./" + sourcePath;
    assert s[1..][1..] == sourcePath;
  }

  /** Stripping is idempotent: an already stripped path gives the same clone path. */
  lemma SourceFullPathStripIdempotent(sourcePath: string)
    ensures SourceFullPath(Text.LStrip(sourcePath, StripChars)) == SourceFullPath(sourcePath)
  {
    Text.LStripIdempotent(sourcePath, StripChars);
  }

  /** When the logged addon name is non-empty and does not start with '.',
      it is the last segment of the copied path, i.e. the folder `cp -r`
      creates under "addons". */
  lemma CopiedFolderIsAddonName(sourcePath: string)
    requires AddonName(sourcePath) != [] && AddonName(sourcePath)[0] != '.'
    ensures Text.LastSegment(SourceFullPath(sourcePath), '/') == AddonName(sourcePath)
  {
    var name := AddonName(sourcePath);
    var stripped := Text.LStrip(sourcePath, StripChars);
    Text.LastSegmentShape(sourcePath, '/');
    assert name[0] !in StripChars;
    Text.LastSegmentOfStripped(sourcePath, StripChars, '/');
    Text.LastSegmentAppend(TempRepo, stripped, '/');
    assert SourceFullPath(sourcePath) == TempRepo + ['/'] + stripped;
  }

  /** A path that starts with neither '.' nor '/' is used as it is. */
  lemma CleanSourcePathKept(sourcePath: string)
    requires sourcePath != [] && sourcePath[0] !in StripChars
    ensures SourceFullPath(sourcePath) == TempRepo + "/" + sourcePath
  {
  }

  /** `lstrip` also eats the dot of a hidden directory name: ".config/x"
      is looked up as "/tmp/repo/config/x". */
  lemma HiddenDirectoryDotStripped(name: string)
    requires name != [] && name[0] !in StripChars
    ensures SourceFullPath("." + name) == TempRepo + "/" + name
  {
    Text.LStripUnique("." + name, StripChars, 1);
    assert ("." + name)[1..] == name;
  }

  /** The source's own git sample: the addon name, the path of that addon
      inside the repository, and the path as the install list writes it. */
  const SampleAddonName := "inventory-system"
  const SampleCloneRelative := "addons/" + SampleAddonName
  const SampleSourcePath := "./" + SampleCloneRelative

  /** "./addons/inventory-system" is copied from "/tmp/repo/addons/inventory-system". */
  lemma InventorySystemPath()
    ensures SourceFullPath(SampleSourcePath) == TempRepo + "/" + SampleCloneRelative
  {
    DotSlashPrefixIgnored(SampleCloneRelative);
    CleanSourcePathKept(SampleCloneRelative);
  }

  /** ... and the addon it installs is named "inventory-system". */
  lemma InventorySystemName()
    ensures AddonName(SampleSourcePath) == SampleAddonName
  {
    assert '/' !in SampleAddonName;
    assert SampleSourcePath == "./addons" + ['/'] + SampleAddonName by {
      assert "./" + "addons/" == "./addons" + ['/'];
    }
    Text.LastSegmentAfterSep("./addons", SampleAddonName, '/');
  }
}
