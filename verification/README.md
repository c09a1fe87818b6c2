# Godot build pipeline on Dagger — a Dafny model

This project models `Basics.my_build_game_step`, the Dagger function that
builds a Godot game for macOS, Linux or Windows. It also models the addon
installation the function runs: `install_addons` and its two fetchers,
`_install_from_zip_url` and `_install_from_git_repo`.

A Dagger container is lazy and immutable: each `with_*` call returns a new
container with one more recorded step. The model therefore treats a
container as the sequence of its recorded steps (`Steps.Step`). Every
operation is a pure function that appends to that sequence. Nothing runs
until the exported file's size is requested. So the result of evaluating
the finished plan is an input: an oracle that gives the export's exit code
and, if a file exists at the export path, its size.

Modules, in dependency order:

- `Results`: `Option`, `Result`, and the exceptions that escape the
  function. These are ValueError for the platform, UnboundLocalError for
  the build arguments, KeyError for install items, and the final "Export
  failed".
- `Text`: `str.lower()` on ASCII, `str.lstrip(chars)`, `str.split(sep)`,
  its inverse `join`, and `split(sep)[-1]`.
- `Steps`: the recorded steps and the discipline every addon fetch keeps.
  Nothing tolerates a failure, the working directory is left alone, and
  each `cp -r` is preceded by a `test -d` of its source and lands in
  "addons".
- `Platforms`: the case-insensitive platform check, the build-argument
  table, the export preset table and the export paths.
- `Fetchers`: the zip and git fetchers, and how the git path is derived
  (`lstrip('./')` and the last path segment).
- `Addons`: how install items are read, dispatch by "type", the loop over
  the items, and `install_addons`.
- `Pipeline`: the recorded plan of `my_build_game_step`, its failure
  order, its shape, and the rule that decides the outcome.

## Model

| member | source | states |
|---|---|---|
| Platforms.NormalizePlatform | build/src/basics/main.py:35-37 | A platform is accepted exactly when it equals "macos", "linux" or "windows" ignoring case, checked letter by letter. An accepted platform becomes that lower-case name. Any other platform raises the fixed ValueError message. |
| Platforms.NormalizeIgnoresCase | build/src/basics/main.py:35-37 | Two platform strings that differ only in letter case are accepted or rejected together, and they normalise to the same name. |
| Platforms.DefaultPlatformAccepted | build/src/basics/main.py:27-37 | The default platform "macOS" passes validation as "macos". |
| Platforms.BuildArgsFor | build/src/basics/main.py:39-50 | Build arguments exist exactly for the case-sensitive hosts "x86_64" and "arm64". They are GODOT_VERSION 4.4.1, GODOT_PLATFORM "linux." + arch and GODOT_ZIP_PLATFORM "linux_" + arch. Any other host leaves them unassigned. |
| Platforms.ExportLabel | build/src/basics/main.py:57-64 | The export preset is defined exactly on the three accepted lower-case names: "macos" gives "macOS", "windows" gives "Windows Desktop" and "linux" gives "Linux". |
| Platforms.ExportLabelTotal | build/src/basics/main.py:57-64 | Every platform that passes validation has a preset, so the `raise` in the final `else` is unreachable. |
| Platforms.ExportLabelInjective | build/src/basics/main.py:57-62 | Distinct platforms get distinct export presets. |
| Platforms.PlatformOfExportPath | build/src/basics/main.py:54-55 | Recovers a platform from an export path; whatever it recovers maps back to that same path. |
| Platforms.ExportPathRoundTrip | build/src/basics/main.py:54-55 | The export path determines the platform, so two platforms never share an export file. |
| Platforms.ExportPathInsideExportDir | build/src/basics/main.py:54-55 | The export file lies directly inside the export directory that the plan creates. |
| Platforms.WindowsPaths | build/src/basics/main.py:54-60 | Windows exports to /export_build/windows/MYGAME.zip with the "Windows Desktop" preset. |
| Platforms.MacosPaths | build/src/basics/main.py:54-55 | macos exports to /export_build/macos/MYGAME.zip. |
| Fetchers.InstallFromZipUrl | build/src/basics/main.py:198-218 | Appends seven steps and leaves the container before them untouched. In order they are `mkdir -p /tmp/extract`, `wget -O /tmp/download.zip <url>`, `unzip -q /tmp/download.zip -d /tmp/extract`, `test -d` and `cp -r` of /tmp/extract/<folder_inside> into "addons", `ls -la addons`, and `rm -rf` of both temporary paths. The steps are disciplined and copy exactly that one folder. |
| Fetchers.InstallFromGitRepo | build/src/basics/main.py:240-259 | Appends six steps and leaves the container before them untouched. In order they are `rm -rf /tmp/repo`, the single-branch clone of the item's branch and repository into /tmp/repo, `test -d` and `cp -r` of the derived path into "addons", `ls -la addons`, and `rm -rf /tmp/repo` again. The derived path is the only thing copied. |
| Fetchers.SourceFullPath | build/src/basics/main.py:250 | The clone path is "/tmp/repo/" followed by a suffix of the source path. Everything dropped in front of that suffix is '.' or '/', and the suffix does not start with either. |
| Fetchers.FetchersIgnoreAddonsPath | build/src/basics/main.py:183-259 | Both fetchers produce the same steps whatever `addons_path` they are given; they copy into the relative "addons" instead. |
| Fetchers.DotSlashPrefixIgnored | build/src/basics/main.py:250 | A source path with a leading "./" gives the same clone path as the path without it. |
| Fetchers.SourceFullPathStripIdempotent | build/src/basics/main.py:250 | Stripping an already stripped path changes nothing. |
| Fetchers.CleanSourcePathKept | build/src/basics/main.py:250 | A path that starts with neither '.' nor '/' is used unchanged under /tmp/repo. |
| Fetchers.HiddenDirectoryDotStripped | build/src/basics/main.py:250 | The dot of a hidden directory at the front of the path is stripped as well: ".x" is looked up as "/tmp/repo/x". |
| Fetchers.CopiedFolderIsAddonName | build/src/basics/main.py:249-256 | Suppose the logged addon name is non-empty and does not start with '.'. Then it is the last segment of the copied path, which is the folder `cp -r` creates under "addons". |
| Fetchers.InventorySystemPath | build/src/basics/main.py:249-250 | The sample "./addons/inventory-system" is copied from /tmp/repo/addons/inventory-system. |
| Fetchers.InventorySystemName | build/src/basics/main.py:249-250 | The addon name of the sample "./addons/inventory-system" is "inventory-system". |
| Addons.ClassifySpec | build/src/basics/main.py:173-178 | A missing "type" raises KeyError on "type". Otherwise the first missing key of that handler raises KeyError, in the order the handler reads its keys (lines 191-192 and 231-233). An item is skipped exactly when its type is neither "zip_url" nor "git_repo". A recognised item yields a source whose fields are the item's values. |
| Addons.ClassifyItemOf | build/src/basics/main.py:148-160 | Writing a source as an install-list dict and reading it back gives the same source. |
| Addons.Fetch | build/src/basics/main.py:173-176 | Dispatch by type: the matching fetcher appends its 7 or 6 disciplined steps and copies exactly the source's folder. A zip item's second step downloads that item's URL, and a git item's second step clones that item's repository and branch. |
| Addons.InstallItemsFails | build/src/basics/main.py:170-178 | The loop succeeds exactly when every item can be read. Otherwise it raises the KeyError of the first item that cannot be read. |
| Addons.InstallItemsAppends | build/src/basics/main.py:170-178 | When it succeeds, the loop keeps its input and appends exactly the fetch steps of the recognised items, in list order (the reference `FetchAll`). Its length is the sum of their fetch lengths, all the added steps are disciplined, and it copies their folders in list order. |
| Addons.InstallItemsFetchAll | build/src/basics/main.py:170-178 | When it succeeds, the loop's result is its input followed by exactly the fetch steps of each recognised item in list order (the reference `FetchAll`), and nothing else. |
| Addons.InstallItemsAppend | build/src/basics/main.py:170-176 | Looping over a concatenation equals looping over the second part, started from the result of the first part. |
| Addons.InstallItemsFrom | build/src/basics/main.py:170-176 | What the loop appends, and whether it fails, do not depend on the steps already recorded. |
| Addons.SkippedItemsChangeNothing | build/src/basics/main.py:177-178 | Removing every item of an unknown type changes neither the result nor the error. The removal (`DropSkipped`) keeps exactly the listed items that the loop does not skip. |
| Addons.PreludeDisciplined | build/src/basics/main.py:164-167 | The rm/mkdir/ls prelude tolerates no failure, keeps the working directory and copies nothing. |
| Addons.InstallAddonsSpec | build/src/basics/main.py:163-181 | Succeeds exactly when every item can be read; otherwise the first KeyError escapes. On success the result is exactly the input, then the prelude that removes, recreates and lists `<root>/addons`, then the fetch steps of each recognised item in list order. That is 3 steps plus the fetch lengths, disciplined, copying the items' folders in order. |
| Addons.InstallAddonsFrom | build/src/basics/main.py:163-181 | The installation appends the prelude and then what the loop appends from nothing, whatever the container held before. |
| Addons.InstallAddonsIgnoresHead | build/src/basics/main.py:163-181 | Installing into two containers that differ only in their first step gives results that differ only in their first step. |
| Addons.SampleSources | build/src/basics/main.py:148-160 | Both hard-coded items can be read and are recognised, zip first and git second. |
| Addons.DefaultInstall | build/src/basics/main.py:140-167 | With the default root "/game1" and the hard-coded items, installation succeeds, appends 16 steps, and first removes, recreates and lists /game1/addons. |
| Addons.SampleInstall | build/src/basics/main.py:148-181 | On the hard-coded list, installation succeeds and appends 3 + 7 + 6 steps. It copies /tmp/extract/fmod and then /tmp/repo/addons/inventory-system. |
| Pipeline.PlanBuildFails | build/src/basics/main.py:34-91 | An invalid platform raises the ValueError first. Then an unknown build host raises UnboundLocalError on `my_build_args` where line 69 reads it. Otherwise the plan is recorded exactly when every install item can be read, and it fails with the first item's KeyError. |
| Pipeline.PlanBuildAssembled | build/src/basics/main.py:52-112 | A recorded plan has passed every validation. It was assembled from the host's build arguments and the platform's export directory, preset and export path. |
| Pipeline.AssembleShape | build/src/basics/main.py:69-112 | The plan has 11 steps plus the fetch lengths. In order they are the seven setup steps, the three-step addon prelude for /GAMEDIR/addons, exactly the recognised items' fetch steps, and the export. Every step before the export fails on a non-zero exit code. |
| Pipeline.SetupFacts | build/src/basics/main.py:69-89 | The seven steps before the addons tolerate no failure and copy nothing, and they leave /GAMEDIR as the working directory in which the relative addon copies run. |
| Pipeline.PlanBuildShape | build/src/basics/main.py:69-112 | The recorded plan in order: the Dockerfile build with the host's arguments, then the mount, GODOT_VERSION, mkdir of the export directory, workdir /GAMEDIR, and apt-get update and install. Then come the addon prelude, exactly the fetch steps of the recognised items in list order, and last the Godot export of the platform's preset to its export path. |
| Pipeline.OnlyExportTolerant | build/src/basics/main.py:102-112 | A step of the plan accepts any exit code exactly when it is the final Godot export. |
| Pipeline.CopiesLandInAddonsPath | build/src/basics/main.py:72-91 | Each addon copy is preceded by a `test -d` of its source. It runs under the working directory /GAMEDIR, so its relative target "addons" resolves to /GAMEDIR/addons. That is the directory the prelude recreated, although the fetchers ignore the path they are handed. |
| Pipeline.AssembleIgnoresBuildArgs | build/src/basics/main.py:69-112 | Two assemblies that differ only in build arguments fail or succeed together, and they agree on every step after the first. |
| Pipeline.ArchOnlyAffectsBuildArgs | build/src/basics/main.py:39-69 | Plans for two build hosts differ at most in their first step. So the export directory, export path and preset depend on the platform alone. |
| Pipeline.VerifyExport | build/src/basics/main.py:119-132 | The outcome is Ok exactly when a file exists at the export path, and then it carries that path and the reported size. Otherwise it is "Export failed: <path> was not created". |
| Pipeline.VerifyIgnoresExitCode | build/src/basics/main.py:101-132 | Two evaluations that agree on the exported file give the same outcome, whatever exit codes the export returned. |
| Pipeline.BuildGame | build/src/basics/main.py:13-132 | An error in recording the plan escapes unchanged. Otherwise the result is Ok exactly when evaluating the plan leaves a file at the platform's export path. It then holds that path and size; if no file is left, the error names that path. |
| Pipeline.BuildGameIgnoresExitCode | build/src/basics/main.py:101-132 | For any inputs, two evaluation oracles that agree on the exported file give the same result. |
| Pipeline.WindowsOnArm64 | build/src/basics/main.py:39-112 | "Windows" on an arm64 host, with readable items, records a plan. It begins with the linux.arm64 build arguments, creates /export_build/windows, and ends with the "Windows Desktop" export to /export_build/windows/MYGAME.zip. |
| Pipeline.DefaultBuild | build/src/basics/main.py:26-112 | The call with every default, host "arm64" and platform "macOS", records a plan when the items can be read. It begins with the linux.arm64 build arguments, creates /export_build/macos, and ends with the "macOS" export to /export_build/macos/MYGAME.zip. |
| Text.LowerIgnoresCase | build/src/basics/main.py:35 | Strings equal ignoring case lower to the same string. |
| Text.LowerMatchesIgnoringCase | build/src/basics/main.py:35-36 | Comparing the lowered string with a lower-case name is the same as comparing ignoring case. |
| Text.LowerIsLower | build/src/basics/main.py:35 | Lowering gives a lower-case string and is idempotent. |
| Text.LStrip | build/src/basics/main.py:250 | The result is a suffix of the input. The part removed consists only of stripped characters, and the result does not start with one. |
| Text.LStripUnique | build/src/basics/main.py:250 | The suffix described above is unique, so it pins down `lstrip` completely. |
| Text.LStripIdempotent | build/src/basics/main.py:250 | Stripping twice strips nothing more. |
| Text.SplitPiecesNoSep | build/src/basics/main.py:249 | No piece of a split holds the separator. |
| Text.JoinSplit | build/src/basics/main.py:249 | Joining the pieces of a split with the separator gives back the string. |
| Text.SplitJoin | build/src/basics/main.py:249 | Splitting the join of separator-free pieces gives back the pieces. |
| Text.LastSegmentShape | build/src/basics/main.py:249 | `split('/')[-1]` holds no '/' and ends the string. It is either the whole string or preceded there by '/'. |
| Text.LastSegmentOfStripped | build/src/basics/main.py:249-250 | Stripping leading characters keeps the last segment when that segment does not itself start with one of them. |
| Steps.GuardedCopyDisciplined | build/src/basics/main.py:212-218 | Plain steps, then `test -d src` and `cp -r src dst`, then plain steps: such a sequence is disciplined and copies exactly `src`. |

## Left out

- Running anything: the Docker build, mounts, commands, downloads and clones are recorded as steps and never run. Their combined effect is the `evaluate` parameter of `Pipeline.BuildGame`.
- The `src` and `game_dir` directories are opaque. Only the path of the mount (`/GAMEDIR`) is modelled, and the Dockerfile build records only its build arguments.
- The file handle is reduced to the export path and the size `size()` reports. The model takes the size as given and does not require a non-zero size: the code accepts any size.
- Every `print`, and `async`/`await`: they have no effect on the recorded steps or on the outcome.
- The `ValueError`'s type is reduced to the error constructor; its message is kept verbatim.
- `install_addons` hard-codes its item list. The model takes the list as a parameter and proves the hard-coded list's behaviour in `Addons.SampleInstall`. The addons root in `Pipeline` is fixed at "/GAMEDIR"; the public default root "/game1" is `Addons.DefaultAddonsRoot`.
- `test_install_addons_with_alpine`: a self-test that installs the addons into an Alpine container and lists them. It is not part of the build. It never sets a working directory, so its relative "addons" copies would not land in `/game1/addons`. It also builds its report string but never returns it.
- `create_ubuntu_with_addons`: a public function that returns an Ubuntu container with tools and addons installed under `/game1`, for further use. It is not part of the build. As written it cannot work, because it calls `self.dag`, which the class never defines (the module imports `dag` at top level). It also sets no working directory, so its copies would miss `/game1/addons` as above.
- Item values other than strings: every value the fetchers read is used as a string.
- A failing step in the middle of a fetch is not modelled separately. Dagger surfaces it only when the exported file's size is requested inside the `try`, so it appears as "Export failed" through the oracle. The same holds for a missing archive folder or clone path, and temporary files are then never cleaned up.
- Text.LowerChar: models the ASCII case mapping only. Validation is unaffected: no non-ASCII character lowers to a string that could complete "macos", "linux" or "windows".
- Pipeline.PlanBuild: has no contract of its own. Its contract is carried by `Pipeline.PlanBuildFails` (which exception, in which order), `Pipeline.PlanBuildAssembled` and `Pipeline.PlanBuildShape` (the plan, step by step), `Pipeline.OnlyExportTolerant` and `Pipeline.CopiesLandInAddonsPath`.
- Pipeline.Setup: its contract is `Pipeline.SetupFacts`, and its steps are stated in `Pipeline.PlanBuildShape`.
- Pipeline.Assemble: its contract is `Pipeline.AssembleShape`, `Pipeline.AssembleCopies` and `Pipeline.AssembleIgnoresBuildArgs`.
- Addons.InstallAddons: its contract is `Addons.InstallAddonsSpec`, with `Addons.InstallAddonsFrom` and `Addons.InstallAddonsIgnoresHead`.
- Addons.InstallItems: its contract is `Addons.InstallItemsFails` (success and errors), `Addons.InstallItemsFetchAll` (the exact result), `Addons.InstallItemsAppends` (length, discipline, copies) and `Addons.SkippedItemsChangeNothing`.
- Addons.Classify: its contract is `Addons.ClassifySpec` together with `Addons.ClassifyItemOf`.
- Addons.Prelude: its contract is `Addons.PreludeDisciplined`, and its position is stated in `Pipeline.AssembleShape`.
- Addons.FetchAll: a reference definition, related to the loop by `Addons.InstallItemsFetchAll`.
- Platforms.ExportDir: its contract is `Platforms.ExportPathInsideExportDir`, `Platforms.WindowsPaths` and `Platforms.MacosPaths`.
- Platforms.ExportPath: its contract is `Platforms.ExportPathRoundTrip` (against the inverse `Platforms.PlatformOfExportPath`) and `Platforms.ExportPathInsideExportDir`.
- Fetchers.AddonName: only logged by the source. Its contract is `Fetchers.CopiedFolderIsAddonName` and `Fetchers.InventorySystemName`, built on `Text.LastSegmentShape`.
- Text.Split: its own contract states only that there is at least one piece. Its properties are the lemmas `SplitPiecesNoSep`, `JoinSplit` and `SplitJoin`.
- Text.LastSegment: states nothing by itself. `Text.LastSegmentShape` carries its meaning.
- Fetchers.CopiedFolderIsAddonName: holds only when the addon name does not start with '.'. `lstrip` also removes the dot of a name such as ".x", and then the copied folder is "x".
- An unknown build host raises UnboundLocalError where main.py:69 reads `my_build_args`, after platform validation; there is no separate architecture error.
- Pipeline.ExportStep: has no contract of its own. Its place as the plan's only step that accepts any exit code is stated by `Pipeline.PlanBuildShape`, `Pipeline.AssembleShape` and `Pipeline.OnlyExportTolerant`; its preset and path for two platforms by `Pipeline.WindowsOnArm64` and `Pipeline.DefaultBuild`.
- Addons.AddonsPath: has no contract of its own. Its use as the prelude's directory is stated by `Addons.InstallAddonsSpec`, and its value for the default root by `Addons.DefaultInstall`.
- Addons.Dispatch: has no contract of its own. What it does per item is stated by `Addons.Fetch` (a recognised type), `Addons.ClassifySpec` (which types are skipped) and `Addons.SkippedItemsChangeNothing` (a skipped item appends nothing); over the whole loop by `Addons.InstallItemsFetchAll`.
- Fetchers.ExtractedFolder: has no contract of its own. The folder it names is the one `Fetchers.InstallFromZipUrl` checks and copies, and `Addons.SampleInstall` gives its value for the sample.
