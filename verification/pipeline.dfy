/** `Basics.my_build_game_step`: validates the parameters, records the
    container plan (Dockerfile build, project mount, export directory, tool
    installation, addons, Godot export) and decides the outcome from whether
    the exported file exists. Dagger evaluates a container lazily, so every
    recorded step runs only when the exported file's size is requested;
    the evaluation is therefore an input here. */
module Pipeline {
  import opened Results
  import opened Steps
  import Platforms
  import Addons
  import Fetchers
  import Text

  /** Where the game project is mounted; also the working directory and the
      addons root. */
  const GameDir := "/GAMEDIR"

  /** The exported file, with the size that was requested to force evaluation. */
  datatype Artifact = Artifact(path: string, size: nat)

  /** What evaluating a plan reports: the exit code of the Godot export, and
      the size of the file at the export path if the evaluation succeeded and
      such a file exists. A failing non-tolerant step also leaves no size. */
  datatype Evaluation = Evaluation(exportExitCode: int, exportedSize: Option<nat>)

  /** The Godot export, the one step that accepts any exit code. */
  function ExportStep(preset: string, exportPath: string): Step {
    Exec(["godot", "--headless", "--verbose", "--export-release", preset, exportPath], true)
  }

  /** The container up to the addon installation. */
  function Setup(buildArgs: seq<BuildArg>, exportDir: string): seq<Step> {
    [ DockerBuild(buildArgs),
      Mount(GameDir),
      Env("GODOT_VERSION", Platforms.GodotVersion),
      Run(["mkdir", "-p", exportDir]),
      Workdir(GameDir),
      Run(["apt-get", "update"]),
      Run(["apt-get", "install", "-y", "wget", "unzip", "git"]) ]
  }

  /** The plan once the parameters are validated: the setup, the addons
      under the game directory, and the final export step `finish`. */
  function Assemble(buildArgs: seq<BuildArg>, exportDir: string, finish: Step, items: seq<Addons.Item>): Result<seq<Step>> {
    var installed :- Addons.InstallAddons(Setup(buildArgs, exportDir), GameDir, items);
    Ok(installed + [finish])
  }

  /** The recorded plan, or the exception raised while recording it: an
      invalid platform first, then the unassigned build arguments of an
      unknown architecture, then a KeyError from the install items. */
  function PlanBuild(arch: string, platform: string, items: seq<Addons.Item>): Result<seq<Step>> {
    var platformLower :- Platforms.NormalizePlatform(platform);
    var preset :- Platforms.ExportLabel(platformLower).OrFail(UnboundLocal("platform_name"));
    var buildArgs :- Platforms.BuildArgsFor(arch).OrFail(UnboundLocal("my_build_args"));
    Assemble(buildArgs, Platforms.ExportDir(platformLower),
             ExportStep(preset, Platforms.ExportPath(platformLower)), items)
  }

  /** Which exception, if any, stops the plan from being recorded: platform
      validation comes before the architecture, which comes before the items;
      an unknown item type raises nothing. */
  lemma PlanBuildFails(arch: string, platform: string, items: seq<Addons.Item>)
    ensures var r := PlanBuild(arch, platform, items);
      && (Platforms.NormalizePlatform(platform).Err? ==>
            r == Err(InvalidPlatform(Platforms.PlatformError)))
      && (Platforms.NormalizePlatform(platform).Ok? && arch != "x86_64" && arch != "arm64" ==>
            r == Err(UnboundLocal("my_build_args")))
      && (Platforms.NormalizePlatform(platform).Ok? && (arch == "x86_64" || arch == "arm64") ==>
            && (r.Ok? <==> Addons.WellFormed(items))
            && (r.Err? ==> Addons.FirstError(items) == Some(r.error)))
  {
    if Platforms.NormalizePlatform(platform).Ok? && (arch == "x86_64" || arch == "arm64") {
      var platformLower := Platforms.NormalizePlatform(platform).value;
      Addons.InstallAddonsSpec(Setup(Platforms.BuildArgsFor(arch).value, Platforms.ExportDir(platformLower)), GameDir, items);
    }
  }

  /** A recorded plan passed every validation and is the assembled plan of
      the platform's directory, preset and export path. */
  lemma PlanBuildAssembled(arch: string, platform: string, items: seq<Addons.Item>)
    requires PlanBuild(arch, platform, items).Ok?
    ensures Platforms.NormalizePlatform(platform).Ok?
    ensures var platformLower := Platforms.NormalizePlatform(platform).value;
      && Platforms.ExportLabel(platformLower).Some?
      && Platforms.BuildArgsFor(arch).Some?
      && PlanBuild(arch, platform, items) ==
           Assemble(Platforms.BuildArgsFor(arch).value, Platforms.ExportDir(platformLower),
                    ExportStep(Platforms.ExportLabel(platformLower).value, Platforms.ExportPath(platformLower)), items)
  {
  }

  /** The assembled plan in order: the setup, the prelude that empties
      `/GAMEDIR/addons`, the fetch steps, and finally the export. */
  lemma AssembleShape(buildArgs: seq<BuildArg>, exportDir: string, finish: Step, items: seq<Addons.Item>)
    requires Assemble(buildArgs, exportDir, finish, items).Ok?
    ensures var plan := Assemble(buildArgs, exportDir, finish, items).value;
      && |plan| == 11 + Addons.TotalFetchLength(Addons.KnownSources(items))
      && plan[..7] == Setup(buildArgs, exportDir)
      && plan[7..10] == Addons.Prelude(Addons.AddonsPath(GameDir))
      && plan[10..|plan| - 1] == Addons.FetchAll(Addons.KnownSources(items), Addons.AddonsPath(GameDir))
      && plan[|plan| - 1] == finish
      && NoneTolerant(plan[..|plan| - 1])
  {
    var setup := Setup(buildArgs, exportDir);
    var prelude := Addons.Prelude(Addons.AddonsPath(GameDir));
    var installed := Addons.InstallAddons(setup, GameDir, items).value;
    SetupFacts(buildArgs, exportDir);
    Addons.InstallAddonsSpec(setup, GameDir, items);
    InstalledThenFinish(setup, prelude, installed, finish);
    BetweenHeadAndFinish(setup + prelude, Addons.FetchAll(Addons.KnownSources(items), Addons.AddonsPath(GameDir)), finish);
  }

  /** The steps between a head and a final step are the middle ones. */
  lemma BetweenHeadAndFinish(head: seq<Step>, middle: seq<Step>, finish: Step)
    ensures var plan := head + middle + [finish];
      plan[|head|..|plan| - 1] == middle
  {
    var plan := head + middle + [finish];
    assert plan[..|plan| - 1] == head + middle;
  }

  /** Appending a final step to an installation that extends `setup + prelude`. */
  lemma InstalledThenFinish(setup: seq<Step>, prelude: seq<Step>, installed: seq<Step>, finish: Step)
    requires Extends(setup + prelude, installed)
    requires NoneTolerant(setup) && NoneTolerant(installed[|setup|..])
    ensures var plan := installed + [finish];
      && plan[..|setup|] == setup
      && plan[|setup|..|setup| + |prelude|] == prelude
      && plan[|plan| - 1] == finish
      && NoneTolerant(plan[..|plan| - 1])
  {
    var plan := installed + [finish];
    assert plan[..|plan| - 1] == installed;
    assert plan[..|setup|] == installed[..|setup|] == (setup + prelude)[..|setup|];
    assert plan[|setup|..|setup| + |prelude|] == installed[|setup|..|setup| + |prelude|]
        == (setup + prelude)[|setup|..];
    forall i | 0 <= i < |installed|
      ensures !Tolerant(installed[i])
    {
      if i < |setup| {
        assert installed[i] == setup[i];
      } else {
        assert installed[i] == installed[|setup|..][i - |setup|];
      }
    }
  }

  /** The recorded plan in order: the Dockerfile build with the
      architecture's arguments, the mount, the Godot version, the export
      directory, the working directory, the tool installation, the prelude
      that empties `/GAMEDIR/addons`, the fetch steps, and finally the Godot
      export of the platform's preset to the export path. */
  lemma PlanBuildShape(arch: string, platform: string, items: seq<Addons.Item>)
    requires PlanBuild(arch, platform, items).Ok?
    ensures var plan := PlanBuild(arch, platform, items).value;
      var platformLower := Platforms.NormalizePlatform(platform).value;
      && Platforms.BuildArgsFor(arch).Some?
      && Platforms.ExportLabel(platformLower).Some?
      && |plan| == 11 + Addons.TotalFetchLength(Addons.KnownSources(items))
      && plan[..7] == Setup(Platforms.BuildArgsFor(arch).value, Platforms.ExportDir(platformLower))
      && plan[7..10] == Addons.Prelude(Addons.AddonsPath(GameDir))
      && plan[10..|plan| - 1] == Addons.FetchAll(Addons.KnownSources(items), Addons.AddonsPath(GameDir))
      && plan[|plan| - 1] == ExportStep(Platforms.ExportLabel(platformLower).value, Platforms.ExportPath(platformLower))
  {
    PlanBuildAssembled(arch, platform, items);
    var platformLower := Platforms.NormalizePlatform(platform).value;
    AssembleShape(Platforms.BuildArgsFor(arch).value, Platforms.ExportDir(platformLower),
                  ExportStep(Platforms.ExportLabel(platformLower).value, Platforms.ExportPath(platformLower)), items);
  }

  /** The Godot export is the only step of the plan that tolerates a
      non-zero exit code. */
  lemma OnlyExportTolerant(arch: string, platform: string, items: seq<Addons.Item>)
    requires PlanBuild(arch, platform, items).Ok?
    ensures var plan := PlanBuild(arch, platform, items).value;
      forall i :: 0 <= i < |plan| ==> (Tolerant(plan[i]) <==> i == |plan| - 1)
  {
    PlanBuildAssembled(arch, platform, items);
    var platformLower := Platforms.NormalizePlatform(platform).value;
    var finish := ExportStep(Platforms.ExportLabel(platformLower).value, Platforms.ExportPath(platformLower));
    AssembleShape(Platforms.BuildArgsFor(arch).value, Platforms.ExportDir(platformLower), finish, items);
    var plan := PlanBuild(arch, platform, items).value;
    forall i | 0 <= i < |plan| - 1
      ensures !Tolerant(plan[i])
    {
      assert plan[i] == plan[..|plan| - 1][i];
    }
  }

  /** Every addon copy is checked first and, resolved against the working
      directory then in effect, lands in `/GAMEDIR/addons`, the directory the
      prelude recreated, although the fetchers ignore the path they are given. */
  lemma CopiesLandInAddonsPath(arch: string, platform: string, items: seq<Addons.Item>)
    requires PlanBuild(arch, platform, items).Ok?
    ensures var plan := PlanBuild(arch, platform, items).value;
      forall j :: 0 <= j < |plan| && IsCopy(plan[j]) ==>
        && 0 < j
        && plan[j - 1] == Guard(plan[j].argv[2])
        && CurrentWorkdir(plan[..j]).Some?
        && CurrentWorkdir(plan[..j]).value + "/" + plan[j].argv[3] == Addons.AddonsPath(GameDir)
  {
    PlanBuildAssembled(arch, platform, items);
    var platformLower := Platforms.NormalizePlatform(platform).value;
    var finish := ExportStep(Platforms.ExportLabel(platformLower).value, Platforms.ExportPath(platformLower));
    AssembleCopies(Platforms.BuildArgsFor(arch).value, Platforms.ExportDir(platformLower), finish, items);
    assert GameDir + "/" + Fetchers.CopyTarget == Addons.AddonsPath(GameDir);
  }

  /** The setup has seven steps, tolerates no failure, leaves the working
      directory at the game directory and copies nothing. */
  lemma SetupFacts(buildArgs: seq<BuildArg>, exportDir: string)
    ensures |Setup(buildArgs, exportDir)| == 7
    ensures NoneTolerant(Setup(buildArgs, exportDir))
    ensures CurrentWorkdir(Setup(buildArgs, exportDir)) == Some(GameDir)
    ensures forall i :: 0 <= i < |Setup(buildArgs, exportDir)| ==> !IsCopy(Setup(buildArgs, exportDir)[i])
  {
    var setup := Setup(buildArgs, exportDir);
    assert CurrentWorkdir(setup) == CurrentWorkdir(setup[..6]);
    assert setup[..6][..5] == setup[..5];
    assert CurrentWorkdir(setup[..6]) == CurrentWorkdir(setup[..5]);
    assert setup[..5][4] == Workdir(GameDir);
  }

  /** In an assembled plan whose final step is not a copy, every copy is
      checked first, runs in the game directory and lands in "addons". */
  lemma AssembleCopies(buildArgs: seq<BuildArg>, exportDir: string, finish: Step, items: seq<Addons.Item>)
    requires Assemble(buildArgs, exportDir, finish, items).Ok?
    requires !IsCopy(finish)
    ensures var plan := Assemble(buildArgs, exportDir, finish, items).value;
      forall j :: 0 <= j < |plan| && IsCopy(plan[j]) ==>
        && 0 < j
        && plan[j - 1] == Guard(plan[j].argv[2])
        && CurrentWorkdir(plan[..j]) == Some(GameDir)
        && plan[j].argv[3] == Fetchers.CopyTarget
  {
    var setup := Setup(buildArgs, exportDir);
    var installed := Addons.InstallAddons(setup, GameDir, items).value;
    SetupFacts(buildArgs, exportDir);
    Addons.InstallAddonsSpec(setup, GameDir, items);
    ExtendsPrefix(setup, Addons.Prelude(Addons.AddonsPath(GameDir)), installed);
    assert Assemble(buildArgs, exportDir, finish, items).value == installed + [finish];
    CopiesUnderWorkdir(setup, installed, finish, GameDir, Fetchers.CopyTarget);
  }

  /** The build arguments only reach the first step: two assemblies that
      differ in them agree everywhere else. */
  lemma AssembleIgnoresBuildArgs(b1: seq<BuildArg>, b2: seq<BuildArg>, exportDir: string, finish: Step,
                                 items: seq<Addons.Item>)
    ensures Assemble(b1, exportDir, finish, items).Ok? == Assemble(b2, exportDir, finish, items).Ok?
    ensures Assemble(b1, exportDir, finish, items).Ok? ==>
      Assemble(b1, exportDir, finish, items).value[1..] == Assemble(b2, exportDir, finish, items).value[1..]
  {
    SetupTail(b1, b2, exportDir);
    InstallTail(Setup(b1, exportDir), Setup(b2, exportDir), items, finish);
  }

  /** The build arguments appear in the first setup step only. */
  lemma SetupTail(b1: seq<BuildArg>, b2: seq<BuildArg>, exportDir: string)
    ensures |Setup(b1, exportDir)| == |Setup(b2, exportDir)| > 0
    ensures Setup(b1, exportDir)[1..] == Setup(b2, exportDir)[1..]
  {
  }

  /** Installing into two containers that agree past their first step
      gives results, with a step appended, that agree past their first step. */
  lemma InstallTail(c1: seq<Step>, c2: seq<Step>, items: seq<Addons.Item>, finish: Step)
    requires |c1| == |c2| > 0 && c1[1..] == c2[1..]
    ensures Addons.InstallAddons(c1, GameDir, items).Ok? == Addons.InstallAddons(c2, GameDir, items).Ok?
    ensures Addons.InstallAddons(c1, GameDir, items).Ok? ==>
      (Addons.InstallAddons(c1, GameDir, items).value + [finish])[1..] ==
      (Addons.InstallAddons(c2, GameDir, items).value + [finish])[1..]
  {
    Addons.InstallAddonsIgnoresHead(c1, c2, GameDir, items);
    if Addons.InstallAddons(c1, GameDir, items).Ok? {
      var r1 := Addons.InstallAddons(c1, GameDir, items).value;
      var r2 := Addons.InstallAddons(c2, GameDir, items).value;
      assert (r1 + [finish])[1..] == r1[1..] + [finish];
      assert (r2 + [finish])[1..] == r2[1..] + [finish];
    }
  }

  /** The architecture only selects the build arguments: plans for two
      architectures differ at most in their first step, so the export
      directory, export path and preset depend on the platform alone. */
  lemma ArchOnlyAffectsBuildArgs(arch1: string, arch2: string, platform: string, items: seq<Addons.Item>)
    requires PlanBuild(arch1, platform, items).Ok? && PlanBuild(arch2, platform, items).Ok?
    ensures PlanBuild(arch1, platform, items).value[1..] == PlanBuild(arch2, platform, items).value[1..]
  {
    PlanBuildAssembled(arch1, platform, items);
    PlanBuildAssembled(arch2, platform, items);
    var platformLower := Platforms.NormalizePlatform(platform).value;
    var finish := ExportStep(Platforms.ExportLabel(platformLower).value, Platforms.ExportPath(platformLower));
    AssembleIgnoresBuildArgs(Platforms.BuildArgsFor(arch1).value, Platforms.BuildArgsFor(arch2).value,
                             Platforms.ExportDir(platformLower), finish, items);
  }

  /** `exported_file.size()` inside the try: the exported file, or the
      "was not created" error, whatever exit code the export returned. */
  function VerifyExport(exportPath: string, evaluation: Evaluation): (r: Result<Artifact>)
    ensures r.Ok? <==> evaluation.exportedSize.Some?
    ensures r.Ok? ==> r.value.path == exportPath && Some(r.value.size) == evaluation.exportedSize
    ensures r.Err? ==> r.error == ExportFailed("Export failed: " + exportPath + " was not created")
  {
    match evaluation.exportedSize
    case Some(size) => Ok(Artifact(exportPath, size))
    case None => Err(ExportFailed("Export failed: " + exportPath + " was not created"))
  }

  /** The tolerant-exit-code rule: the export's exit code never decides the
      outcome. */
  lemma VerifyIgnoresExitCode(exportPath: string, e1: Evaluation, e2: Evaluation)
    requires e1.exportedSize == e2.exportedSize
    ensures VerifyExport(exportPath, e1) == VerifyExport(exportPath, e2)
  {
  }

  /** `my_build_game_step(src, game_dir, arch, platform)` with the install
      list as a parameter and the evaluation of the recorded plan as an
      oracle. */
  function BuildGame(arch: string, platform: string, items: seq<Addons.Item>,
                     evaluate: seq<Step> -> Evaluation): (r: Result<Artifact>)
    ensures PlanBuild(arch, platform, items).Err? ==> r == Err(PlanBuild(arch, platform, items).error)
    ensures PlanBuild(arch, platform, items).Ok? ==>
      var plan := PlanBuild(arch, platform, items).value;
      var exportPath := Platforms.ExportPath(Platforms.NormalizePlatform(platform).value);
      && (r.Ok? <==> evaluate(plan).exportedSize.Some?)
      && (r.Ok? ==> r.value == Artifact(exportPath, evaluate(plan).exportedSize.value))
      && (r.Err? ==> r.error == ExportFailed("Export failed: " + exportPath + " was not created"))
  {
    var plan :- PlanBuild(arch, platform, items);
    var platformLower := Platforms.NormalizePlatform(platform).value;
    VerifyExport(Platforms.ExportPath(platformLower), evaluate(plan))
  }

  /** The outcome depends only on whether the exported file exists, never on
      the export's exit code. */
  lemma BuildGameIgnoresExitCode(arch: string, platform: string, items: seq<Addons.Item>,
                                 ev1: seq<Step> -> Evaluation, ev2: seq<Step> -> Evaluation)
    requires forall plan :: ev1(plan).exportedSize == ev2(plan).exportedSize
    ensures BuildGame(arch, platform, items, ev1) == BuildGame(arch, platform, items, ev2)
  {
  }

  /** Windows on an arm64 build host: the linux.arm64 toolchain, the
      "Windows Desktop" preset, and the export under /export_build/windows. */
  lemma WindowsOnArm64(items: seq<Addons.Item>)
    requires Addons.WellFormed(items)
    ensures PlanBuild("arm64", "Windows", items).Ok?
    ensures var plan := PlanBuild("arm64", "Windows", items).value;
      && |plan| == 11 + Addons.TotalFetchLength(Addons.KnownSources(items))
      && plan[0] == DockerBuild(Platforms.Arm64BuildArgs)
      && plan[3] == Run(["mkdir", "-p", "/export_build/windows"])
      && plan[|plan| - 1] == ExportStep("Windows Desktop", "/export_build/windows/MYGAME.zip")
  {
    var finish := ExportStep("Windows Desktop", "/export_build/windows/MYGAME.zip");
    WindowsOnArm64Assembled(items);
    AssembleShape(Platforms.Arm64BuildArgs, "/export_build/windows", finish, items);
    var plan := PlanBuild("arm64", "Windows", items).value;
    assert plan[0] == plan[..7][0] && plan[3] == plan[..7][3];
  }

  lemma WindowsOnArm64Assembled(items: seq<Addons.Item>)
    requires Addons.WellFormed(items)
    ensures PlanBuild("arm64", "Windows", items).Ok?
    ensures PlanBuild("arm64", "Windows", items) ==
      Assemble(Platforms.Arm64BuildArgs, "/export_build/windows",
               ExportStep("Windows Desktop", "/export_build/windows/MYGAME.zip"), items)
  {
    Platforms.WindowsAccepted();
    Platforms.Arm64Args();
    PlanBuildFails("arm64", "Windows", items);
    PlanBuildAssembled("arm64", "Windows", items);
    Platforms.WindowsPaths();
  }

  /** The call with every default, `platform_build_container="arm64"` and
      `platform="macOS"`: the linux.arm64 toolchain, the "macOS" preset and
      the export under /export_build/macos. */
  lemma DefaultBuild(items: seq<Addons.Item>)
    requires Addons.WellFormed(items)
    ensures PlanBuild(Platforms.DefaultArch, Platforms.DefaultPlatform, items).Ok?
    ensures var plan := PlanBuild(Platforms.DefaultArch, Platforms.DefaultPlatform, items).value;
      && |plan| == 11 + Addons.TotalFetchLength(Addons.KnownSources(items))
      && plan[0] == DockerBuild(Platforms.Arm64BuildArgs)
      && plan[3] == Run(["mkdir", "-p", "/export_build/macos"])
      && plan[|plan| - 1] == ExportStep("macOS", "/export_build/macos/MYGAME.zip")
  {
    var finish := ExportStep("macOS", "/export_build/macos/MYGAME.zip");
    DefaultBuildAssembled(items);
    AssembleShape(Platforms.Arm64BuildArgs, "/export_build/macos", finish, items);
    var plan := PlanBuild(Platforms.DefaultArch, Platforms.DefaultPlatform, items).value;
    assert plan[0] == plan[..7][0] && plan[3] == plan[..7][3];
  }

  lemma DefaultBuildAssembled(items: seq<Addons.Item>)
    requires Addons.WellFormed(items)
    ensures PlanBuild(Platforms.DefaultArch, Platforms.DefaultPlatform, items).Ok?
    ensures PlanBuild(Platforms.DefaultArch, Platforms.DefaultPlatform, items) ==
      Assemble(Platforms.Arm64BuildArgs, "/export_build/macos",
               ExportStep("macOS", "/export_build/macos/MYGAME.zip"), items)
  {
    Platforms.DefaultPlatformAccepted();
    Platforms.Arm64Args();
    PlanBuildFails(Platforms.DefaultArch, Platforms.DefaultPlatform, items);
    PlanBuildAssembled(Platforms.DefaultArch, Platforms.DefaultPlatform, items);
    Platforms.MacosPaths();
  }
}
