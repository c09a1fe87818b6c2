/** `install_addons`: empties and recreates `<root>/addons`, then walks the
    list of install items in order and hands each to the fetcher its "type"
    names. Items of any other type are skipped without error. */
module Addons {
  import opened Results
  import opened Steps
  import Fetchers

  /** One entry of the install list: a dict from string keys to string values. */
  type Item = map<string, string>

  const ZipUrlType := "zip_url"
  const GitRepoType := "git_repo"

  /** What a recognised item asks for. */
  datatype Source =
    | ZipUrl(url: string, folderInside: string)
    | GitRepo(repoUrl: string, branch: string, sourcePath: string)

  /** The keys the handler for an item type indexes, in the order it reads them. */
  function RequiredKeys(kind: string): seq<string> {
    if kind == ZipUrlType then ["url", "folder_inside"]
    else if kind == GitRepoType then ["repo_url", "branch", "source_path"]
    else []
  }

  /** The first of `keys` the item lacks, if any. */
  function FirstMissing(item: Item, keys: seq<string>): Option<string> {
    if |keys| == 0 then None
    else if keys[0] !in item then Some(keys[0])
    else FirstMissing(item, keys[1..])
  }

  /** The dict that describes a source, as the install list writes it. */
  function ItemOf(s: Source): Item {
    match s
    case ZipUrl(url, folderInside) =>
      map["type" := ZipUrlType, "url" := url, "folder_inside" := folderInside]
    case GitRepo(repoUrl, branch, sourcePath) =>
      map["type" := GitRepoType, "repo_url" := repoUrl, "branch" := branch, "source_path" := sourcePath]
  }

  /** Reads an item the way the loop and the fetchers index it: "type"
      first, then the handler's keys in order. An unrecognised type gives
      None: the item is skipped. */
  function Classify(item: Item): Result<Option<Source>> {
    if "type" !in item then Err(MissingKey("type"))
    else if item["type"] == ZipUrlType then
      if "url" !in item then Err(MissingKey("url"))
      else if "folder_inside" !in item then Err(MissingKey("folder_inside"))
      else Ok(Some(ZipUrl(item["url"], item["folder_inside"])))
    else if item["type"] == GitRepoType then
      if "repo_url" !in item then Err(MissingKey("repo_url"))
      else if "branch" !in item then Err(MissingKey("branch"))
      else if "source_path" !in item then Err(MissingKey("source_path"))
      else Ok(Some(GitRepo(item["repo_url"], item["branch"], item["source_path"])))
    else Ok(None)
  }

  /** Reading an item raises KeyError on "type" or else on the first of its
      handler's keys that is missing; an item with an unrecognised type is
      skipped; a recognised item yields the source its dict describes. */
  lemma ClassifySpec(item: Item)
    ensures "type" !in item ==> Classify(item) == Err(MissingKey("type"))
    ensures "type" in item ==>
      match FirstMissing(item, RequiredKeys(item["type"]))
      case Some(k) => Classify(item) == Err(MissingKey(k))
      case None => Classify(item).Ok?
    ensures Classify(item) == Ok(None) <==>
      "type" in item && item["type"] != ZipUrlType && item["type"] != GitRepoType
    ensures Classify(item).Ok? && Classify(item).value.Some? ==>
      var s := Classify(item).value.value;
      forall k :: k in ItemOf(s) ==> k in item && item[k] == ItemOf(s)[k]
  {
    if "type" in item {
      var keys := RequiredKeys(item["type"]);
      if item["type"] == ZipUrlType && "url" in item {
        assert keys == ["url", "folder_inside"];
        assert keys[1..] == ["folder_inside"];
        assert FirstMissing(item, keys) == FirstMissing(item, ["folder_inside"]);
        assert ["folder_inside"][1..] == [];
        assert FirstMissing(item, ["folder_inside"]) ==
          if "folder_inside" in item then None else Some("folder_inside");
      } else if item["type"] == GitRepoType && "repo_url" in item {
        assert keys == ["repo_url", "branch", "source_path"];
        assert keys[1..] == ["branch", "source_path"];
        assert FirstMissing(item, keys) == FirstMissing(item, ["branch", "source_path"]);
        if "branch" in item {
          assert ["branch", "source_path"][1..] == ["source_path"];
          assert FirstMissing(item, ["branch", "source_path"]) == FirstMissing(item, ["source_path"]);
          assert ["source_path"][1..] == [];
          assert FirstMissing(item, ["source_path"]) ==
            if "source_path" in item then None else Some("source_path");
        }
      }
    }
  }

  /** Writing a source as a dict and reading it back gives the source. */
  lemma ClassifyItemOf(s: Source)
    ensures Classify(ItemOf(s)) == Ok(Some(s))
  {
  }

  /** The folder a source's fetcher copies into "addons". */
  function FetchedFolder(s: Source): string {
    match s
    case ZipUrl(_, folderInside) => Fetchers.ExtractedFolder(folderInside)
    case GitRepo(_, _, sourcePath) => Fetchers.SourceFullPath(sourcePath)
  }

  /** How many steps a source's fetcher appends. */
  function FetchLength(s: Source): nat {
    if s.ZipUrl? then 7 else 6
  }

  /** Dispatches a recognised item to its fetcher. */
  function Fetch(c: seq<Step>, s: Source, addonsPath: string): (r: seq<Step>)
    ensures Extends(c, r) && |r| == |c| + FetchLength(s)
    ensures Disciplined(r[|c|..], Fetchers.CopyTarget)
    ensures CopiedSources(r[|c|..]) == [FetchedFolder(s)]
    ensures s.ZipUrl? ==> r[|c| + 1] == Run(["wget", "-O", Fetchers.TempZip, s.url])
    ensures s.GitRepo? ==>
      r[|c| + 1] == Run(["git", "clone", "--branch", s.branch, "--single-branch", s.repoUrl, Fetchers.TempRepo])
  {
    match s
    case ZipUrl(url, folderInside) => Fetchers.InstallFromZipUrl(c, url, folderInside, addonsPath)
    case GitRepo(repoUrl, branch, sourcePath) => Fetchers.InstallFromGitRepo(c, repoUrl, branch, sourcePath, addonsPath)
  }

  /** What one item contributes: nothing when it is skipped, its fetch otherwise. */
  function Dispatch(c: seq<Step>, source: Option<Source>, addonsPath: string): seq<Step> {
    match source
    case None => c
    case Some(s) => Fetch(c, s, addonsPath)
  }

  /** The loop over the install items, in list order. */
  function InstallItems(c: seq<Step>, items: seq<Item>, addonsPath: string): Result<seq<Step>>
    decreases |items|
  {
    if |items| == 0 then Ok(c)
    else
      var source :- Classify(items[0]);
      InstallItems(Dispatch(c, source, addonsPath), items[1..], addonsPath)
  }

  /** Every item can be read without a KeyError. */
  predicate WellFormed(items: seq<Item>) {
    forall i :: 0 <= i < |items| ==> Classify(items[i]).Ok?
  }

  /** The error of the first item that cannot be read, if any. */
  function FirstError(items: seq<Item>): Option<Error> {
    if |items| == 0 then None
    else if Classify(items[0]).Err? then Some(Classify(items[0]).error)
    else FirstError(items[1..])
  }

  /** The recognised sources among the items, in list order. */
  function KnownSources(items: seq<Item>): seq<Source> {
    if |items| == 0 then []
    else
      var r := Classify(items[0]);
      (if r.Ok? && r.value.Some? then [r.value.value] else []) + KnownSources(items[1..])
  }

  function FetchedFolders(sources: seq<Source>): seq<string> {
    if |sources| == 0 then [] else [FetchedFolder(sources[0])] + FetchedFolders(sources[1..])
  }

  function TotalFetchLength(sources: seq<Source>): nat {
    if |sources| == 0 then 0 else FetchLength(sources[0]) + TotalFetchLength(sources[1..])
  }

  /** Reference definition of what the loop appends: the fetch steps of
      each source in turn, each fetched from nothing. */
  function FetchAll(sources: seq<Source>, addonsPath: string): seq<Step> {
    if |sources| == 0 then [] else Fetch([], sources[0], addonsPath) + FetchAll(sources[1..], addonsPath)
  }

  /** The loop succeeds iff every item can be read; otherwise it fails with
      the KeyError of the first item that cannot. */
  lemma {:induction false} InstallItemsFails(c: seq<Step>, items: seq<Item>, addonsPath: string)
    ensures var r := InstallItems(c, items, addonsPath);
      && (r.Ok? <==> WellFormed(items))
      && (r.Err? ==> FirstError(items) == Some(r.error))
    decreases |items|
  {
    if |items| > 0 {
      var rest := items[1..];
      WellFormedCons(items);
      var head := Classify(items[0]);
      if head.Ok? {
        var next := Dispatch(c, head.value, addonsPath);
        InstallItemsFails(next, rest, addonsPath);
      }
    }
  }

  lemma WellFormedCons(items: seq<Item>)
    requires |items| > 0
    ensures WellFormed(items) <==> Classify(items[0]).Ok? && WellFormed(items[1..])
  {
    var rest := items[1..];
    if Classify(items[0]).Ok? && WellFormed(rest) {
      forall i | 0 <= i < |items| ensures Classify(items[i]).Ok? {
        if i > 0 { assert items[i] == rest[i - 1]; }
      }
    }
    if WellFormed(items) {
      forall i | 0 <= i < |rest| ensures Classify(rest[i]).Ok? {
        assert rest[i] == items[i + 1];
      }
    }
  }

  /** When the loop succeeds it leaves `c` untouched and appends exactly the
      fetch steps of the recognised sources in list order: each copy checked
      first and landing in "addons", nothing tolerating failure, the working
      directory unchanged. */
  lemma {:induction false} InstallItemsAppends(c: seq<Step>, items: seq<Item>, addonsPath: string)
    ensures var r := InstallItems(c, items, addonsPath);
      r.Ok? ==>
        && Extends(c, r.value)
        && |r.value| == |c| + TotalFetchLength(KnownSources(items))
        && Disciplined(r.value[|c|..], Fetchers.CopyTarget)
        && CopiedSources(r.value[|c|..]) == FetchedFolders(KnownSources(items))
    ensures var r := InstallItems(c, items, addonsPath);
      r.Ok? ==> r.value == c + FetchAll(KnownSources(items), addonsPath)
    decreases |items|
  {
    InstallItemsFetchAll(c, items, addonsPath);
    if |items| == 0 {
      assert c[|c|..] == [];
      NoCopiesCopyNothing([]);
    } else {
      var rest := items[1..];
      var head := Classify(items[0]);
      if head.Ok? {
        var next := Dispatch(c, head.value, addonsPath);
        InstallItemsAppends(next, rest, addonsPath);
        var r := InstallItems(next, rest, addonsPath);
        assert InstallItems(c, items, addonsPath) == r;
        if r.Ok? {
          if head.value.Some? {
            var s := head.value.value;
            var known := KnownSources(rest);
            assert KnownSources(items) == [s] + known;
            assert ([s] + known)[1..] == known;
            assert TotalFetchLength([s] + known) == FetchLength(s) + TotalFetchLength(known);
            assert FetchedFolders([s] + known) == [FetchedFolder(s)] + FetchedFolders(known);
            FetchedThenRest(c, next, r.value);
          } else {
            assert KnownSources(items) == KnownSources(rest);
          }
        }
      }
    }
  }

  /** Gluing one fetch onto the steps that follow it. */
  lemma FetchedThenRest(c: seq<Step>, next: seq<Step>, r: seq<Step>)
    requires Extends(c, next) && Extends(next, r)
    requires Disciplined(next[|c|..], Fetchers.CopyTarget) && Disciplined(r[|next|..], Fetchers.CopyTarget)
    ensures Extends(c, r)
    ensures Disciplined(r[|c|..], Fetchers.CopyTarget)
    ensures CopiedSources(r[|c|..]) == CopiedSources(next[|c|..]) + CopiedSources(r[|next|..])
  {
    assert r[|c|..] == next[|c|..] + r[|next|..];
    DisciplinedAppend(next[|c|..], r[|next|..], Fetchers.CopyTarget);
    CopiedSourcesAppend(next[|c|..], r[|next|..]);
  }

  /** The loop over a concatenation is the loop over the second part,
      started from the result of the loop over the first. */
  lemma {:induction false} InstallItemsAppend(c: seq<Step>, xs: seq<Item>, ys: seq<Item>, addonsPath: string)
    ensures InstallItems(c, xs + ys, addonsPath) ==
      match InstallItems(c, xs, addonsPath)
      case Ok(c') => InstallItems(c', ys, addonsPath)
      case Err(e) => Err(e)
    decreases |xs|
  {
    if |xs| == 0 {
      assert xs + ys == ys;
    } else {
      assert (xs + ys)[0] == xs[0];
      assert (xs + ys)[1..] == xs[1..] + ys;
      var head := Classify(xs[0]);
      if head.Ok? {
        var next := Dispatch(c, head.value, addonsPath);
        InstallItemsAppend(next, xs[1..], ys, addonsPath);
      }
    }
  }

  /** What one item contributes does not depend on the steps before it. */
  lemma DispatchFrom(c: seq<Step>, source: Option<Source>, addonsPath: string)
    ensures Dispatch(c, source, addonsPath) == c + Dispatch([], source, addonsPath)
  {
    match source
    case None =>
      assert c + [] == c;
    case Some(s) =>
      match s
      case ZipUrl(_, _) =>
      case GitRepo(_, _, _) =>
  }

  /** The loop appends the same steps whatever it starts from, and fails
      or succeeds independently of them. */
  lemma {:induction false} InstallItemsFrom(c: seq<Step>, items: seq<Item>, addonsPath: string)
    ensures InstallItems(c, items, addonsPath).Ok? == InstallItems([], items, addonsPath).Ok?
    ensures InstallItems(c, items, addonsPath).Ok? ==>
      InstallItems(c, items, addonsPath).value == c + InstallItems([], items, addonsPath).value
    decreases |items|
  {
    if |items| == 0 {
      assert c + [] == c;
    } else if Classify(items[0]).Ok? {
      var d := Dispatch([], Classify(items[0]).value, addonsPath);
      InstallItemsStep(c, items, addonsPath);
      InstallItemsStep([], items, addonsPath);
      InstallItemsFrom(c + d, items[1..], addonsPath);
      InstallItemsFrom(d, items[1..], addonsPath);
      SeqAssociative(c, d, InstallItems([], items[1..], addonsPath));
    }
  }

  /** When the loop succeeds, it appends exactly the fetch steps of the
      recognised sources, in list order, and nothing else. */
  lemma {:induction false} InstallItemsFetchAll(c: seq<Step>, items: seq<Item>, addonsPath: string)
    ensures InstallItems(c, items, addonsPath).Ok? ==>
      InstallItems(c, items, addonsPath).value == c + FetchAll(KnownSources(items), addonsPath)
    decreases |items|
  {
    if |items| == 0 {
      assert c + [] == c;
    } else if Classify(items[0]).Ok? {
      var source := Classify(items[0]).value;
      var d := Dispatch([], source, addonsPath);
      var rest := items[1..];
      InstallItemsStep(c, items, addonsPath);
      InstallItemsFetchAll(c + d, rest, addonsPath);
      var tail := FetchAll(KnownSources(rest), addonsPath);
      if source.Some? {
        var known := [source.value] + KnownSources(rest);
        assert KnownSources(items) == known;
        assert known[1..] == KnownSources(rest);
        assert FetchAll(known, addonsPath) == d + tail;
      } else {
        assert KnownSources(items) == KnownSources(rest);
        assert c + d == c;
      }
      SeqAssociative(c, d, Ok(tail));
    }
  }

  /** One turn of the loop on a readable item. */
  lemma InstallItemsStep(c: seq<Step>, items: seq<Item>, addonsPath: string)
    requires |items| > 0 && Classify(items[0]).Ok?
    ensures InstallItems(c, items, addonsPath) ==
      InstallItems(c + Dispatch([], Classify(items[0]).value, addonsPath), items[1..], addonsPath)
  {
    DispatchFrom(c, Classify(items[0]).value, addonsPath);
  }

  lemma SeqAssociative(c: seq<Step>, d: seq<Step>, x: Result<seq<Step>>)
    ensures x.Ok? ==> (c + d) + x.value == c + (d + x.value)
  {
  }

  /** Drops the items of an unrecognised type: an item survives exactly
      when it is in the list and is not one that the loop skips. */
  function DropSkipped(items: seq<Item>): (r: seq<Item>)
    ensures |r| <= |items|
    ensures forall x :: x in r <==> x in items && Classify(x) != Ok(None)
  {
    if |items| == 0 then []
    else if Classify(items[0]) == Ok(None) then DropSkipped(items[1..])
    else [items[0]] + DropSkipped(items[1..])
  }

  /** Items of an unrecognised type neither add steps nor raise: removing
      them all changes nothing. */
  lemma {:induction false} SkippedItemsChangeNothing(c: seq<Step>, items: seq<Item>, addonsPath: string)
    ensures InstallItems(c, DropSkipped(items), addonsPath) == InstallItems(c, items, addonsPath)
    decreases |items|
  {
    if |items| > 0 {
      var head := Classify(items[0]);
      if head == Ok(None) {
        SkippedItemsChangeNothing(c, items[1..], addonsPath);
      } else if head.Ok? {
        var d := DropSkipped(items);
        assert d[0] == items[0] && d[1..] == DropSkipped(items[1..]);
        var s := head.value.value;
        SkippedItemsChangeNothing(Dispatch(c, head.value, addonsPath), items[1..], addonsPath);
      }
    }
  }

  /** The default of `install_addons`' `addons_root_path`. */
  const DefaultAddonsRoot := "/game1"

  function AddonsPath(root: string): string {
    root + "/addons"
  }

  /** Removes and recreates the addons directory, then lists it. */
  function Prelude(addonsPath: string): seq<Step> {
    [ Run(["rm", "-rf", addonsPath]),
      Run(["mkdir", "-p", addonsPath]),
      Run(["ls", "-la", addonsPath]) ]
  }

  /** `install_addons(container, root, items)`: the prelude that empties
      `<root>/addons`, then the loop over the items. */
  function InstallAddons(c: seq<Step>, root: string, items: seq<Item>): Result<seq<Step>> {
    InstallItems(c + Prelude(AddonsPath(root)), items, AddonsPath(root))
  }

  /** `install_addons` succeeds iff every item can be read; then, after `c`
      and the prelude that empties `<root>/addons`, it holds exactly the
      fetch steps of the recognised items in list order, all disciplined.
      Otherwise the first item's KeyError escapes. */
  lemma InstallAddonsSpec(c: seq<Step>, root: string, items: seq<Item>)
    ensures var r := InstallAddons(c, root, items);
      && (r.Ok? <==> WellFormed(items))
      && (r.Err? ==> FirstError(items) == Some(r.error))
      && (r.Ok? ==>
        && r.value == c + Prelude(AddonsPath(root)) + FetchAll(KnownSources(items), AddonsPath(root))
        && Extends(c + Prelude(AddonsPath(root)), r.value)
        && |r.value| == |c| + 3 + TotalFetchLength(KnownSources(items))
        && Disciplined(r.value[|c|..], Fetchers.CopyTarget)
        && CopiedSources(r.value[|c|..]) == FetchedFolders(KnownSources(items)))
  {
    var addonsPath := AddonsPath(root);
    InstallItemsFails(c + Prelude(addonsPath), items, addonsPath);
    InstallItemsAppends(c + Prelude(addonsPath), items, addonsPath);
    InstallAfterPrelude(c, items, addonsPath);
    InstallItemsFetchAll(c + Prelude(addonsPath), items, addonsPath);
  }

  /** The installation appends the prelude and then what the loop appends
      from nothing, whatever the container held before. */
  lemma InstallAddonsFrom(c: seq<Step>, root: string, items: seq<Item>)
    ensures var x := InstallItems([], items, AddonsPath(root));
      && InstallAddons(c, root, items).Ok? == x.Ok?
      && (x.Ok? ==> InstallAddons(c, root, items).value == c + (Prelude(AddonsPath(root)) + x.value))
  {
    var p := AddonsPath(root);
    InstallItemsFrom(c + Prelude(p), items, p);
    var x := InstallItems([], items, p);
    if x.Ok? {
      assert c + Prelude(p) + x.value == c + (Prelude(p) + x.value);
    }
  }

  /** Installing into two containers that agree past their first step gives
      results that agree past their first step. */
  lemma InstallAddonsIgnoresHead(c1: seq<Step>, c2: seq<Step>, root: string, items: seq<Item>)
    requires |c1| == |c2| > 0 && c1[1..] == c2[1..]
    ensures InstallAddons(c1, root, items).Ok? == InstallAddons(c2, root, items).Ok?
    ensures InstallAddons(c1, root, items).Ok? ==>
      var r1 := InstallAddons(c1, root, items).value;
      var r2 := InstallAddons(c2, root, items).value;
      |r1| == |r2| > 0 && r1[1..] == r2[1..]
  {
    InstallAddonsFrom(c1, root, items);
    InstallAddonsFrom(c2, root, items);
    var x := InstallItems([], items, AddonsPath(root));
    if x.Ok? {
      TailsAgree(c1, c2, Prelude(AddonsPath(root)) + x.value);
    }
  }

  lemma TailsAgree(c1: seq<Step>, c2: seq<Step>, t: seq<Step>)
    requires |c1| == |c2| > 0 && c1[1..] == c2[1..]
    ensures |c1 + t| == |c2 + t| > 0 && (c1 + t)[1..] == (c2 + t)[1..]
  {
    assert (c1 + t)[1..] == c1[1..] + t;
    assert (c2 + t)[1..] == c2[1..] + t;
  }

  /** The prelude carries the discipline and copies nothing, so the
      installation's properties extend to it. */
  lemma InstallAfterPrelude(c: seq<Step>, items: seq<Item>, addonsPath: string)
    ensures var start := c + Prelude(addonsPath);
      var r := InstallItems(start, items, addonsPath);
      r.Ok? ==>
        && |start| <= |r.value|
        && r.value[..|c|] == c
        && Disciplined(r.value[|c|..], Fetchers.CopyTarget)
        && CopiedSources(r.value[|c|..]) == CopiedSources(r.value[|start|..])
  {
    var prelude := Prelude(addonsPath);
    var start := c + prelude;
    InstallItemsAppends(start, items, addonsPath);
    var r := InstallItems(start, items, addonsPath);
    if r.Ok? {
      assert start[|c|..] == prelude;
      PreludeDisciplined(addonsPath);
      FetchedThenRest(c, start, r.value);
    }
  }

  /** The prelude tolerates no failure, keeps the working directory and copies nothing. */
  lemma PreludeDisciplined(addonsPath: string)
    ensures Disciplined(Prelude(addonsPath), Fetchers.CopyTarget)
    ensures CopiedSources(Prelude(addonsPath)) == []
  {
    NoCopiesCopyNothing(Prelude(addonsPath));
  }

  /** The two items the source installs, as sample input. */
  const SampleZip := ZipUrl("https://github.com/utopia-rise/fmod-gdextension/releases/download/5.0.6-4.4.0/addons.zip", "fmod")
  const SampleGit := GitRepo("https://github.com/expressobits/inventory-system", "addon-2.6.3", Fetchers.SampleSourcePath)
  const SampleItems: seq<Item> := [ItemOf(SampleZip), ItemOf(SampleGit)]

  /** Both sample items are read without error and recognised, in order. */
  lemma SampleSources()
    ensures WellFormed(SampleItems)
    ensures KnownSources(SampleItems) == [SampleZip, SampleGit]
  {
    ClassifyItemOf(SampleZip);
    ClassifyItemOf(SampleGit);
    var tail := SampleItems[1..];
    assert tail == [ItemOf(SampleGit)];
    assert tail[1..] == [];
    assert KnownSources(tail) == [SampleGit] + KnownSources([]);
    assert KnownSources(SampleItems) == [SampleZip] + KnownSources(tail);
  }

  /** The sample copies the "fmod" folder of the archive, then the
      inventory-system folder of the clone. */
  lemma SampleFolders()
    ensures FetchedFolders([SampleZip, SampleGit]) ==
      [Fetchers.TempExtract + "/" + "fmod", Fetchers.TempRepo + "/" + Fetchers.SampleCloneRelative]
    ensures TotalFetchLength([SampleZip, SampleGit]) == 13
  {
    Fetchers.InventorySystemPath();
    var both := [SampleZip, SampleGit];
    assert both[1..] == [SampleGit];
    assert [SampleGit][1..] == [];
    assert FetchedFolders([SampleGit]) == [FetchedFolder(SampleGit)] + FetchedFolders([]);
    assert FetchedFolders(both) == [FetchedFolder(SampleZip)] + FetchedFolders([SampleGit]);
    assert TotalFetchLength([SampleGit]) == 6 + TotalFetchLength([]);
    assert TotalFetchLength(both) == 7 + TotalFetchLength([SampleGit]);
  }

  /** On the sample list the installation succeeds, appends 3 + 7 + 6
      steps, and copies the "fmod" folder of the archive and then the
      inventory-system folder of the clone. */
  lemma SampleInstall(c: seq<Step>, root: string)
    ensures var r := InstallAddons(c, root, SampleItems);
      && r.Ok?
      && |r.value| == |c| + 16
      && CopiedSources(r.value[|c|..]) ==
           [Fetchers.TempExtract + "/" + "fmod", Fetchers.TempRepo + "/" + Fetchers.SampleCloneRelative]
  {
    SampleSources();
    SampleFolders();
    InstallAddonsSpec(c, root, SampleItems);
  }

  /** Called with its default root, `install_addons` empties, recreates
      and lists /game1/addons before fetching the sample items. */
  lemma DefaultInstall(c: seq<Step>)
    ensures AddonsPath(DefaultAddonsRoot) == "/game1/addons"
    ensures var r := InstallAddons(c, DefaultAddonsRoot, SampleItems);
      && r.Ok?
      && |r.value| == |c| + 16
      && r.value[|c|] == Run(["rm", "-rf", "/game1/addons"])
      && r.value[|c| + 1] == Run(["mkdir", "-p", "/game1/addons"])
      && r.value[|c| + 2] == Run(["ls", "-la", "/game1/addons"])
  {
    var p := AddonsPath(DefaultAddonsRoot);
    assert p == "/game1/addons";
    SampleInstall(c, DefaultAddonsRoot);
    InstallAddonsSpec(c, DefaultAddonsRoot, SampleItems);
    PreludeAt(c, p, FetchAll(KnownSources(SampleItems), p));
  }

  /** The prelude's three steps sit right after the steps before them. */
  lemma PreludeAt(c: seq<Step>, p: string, t: seq<Step>)
    ensures var r := c + Prelude(p) + t;
      && r[|c|] == Run(["rm", "-rf", p])
      && r[|c| + 1] == Run(["mkdir", "-p", p])
      && r[|c| + 2] == Run(["ls", "-la", p])
  {
  }
}
