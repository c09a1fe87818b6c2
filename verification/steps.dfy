/** A Dagger container is a lazy, immutable builder: every `with_exec`,
    `with_mounted_directory`, `with_env_variable` and `with_workdir` returns
    a new container with one more recorded step. Here a container is the
    sequence of the steps recorded so far, headed by the build from a
    Dockerfile. */
module Steps {
  import opened Results

  /** One `--build-arg NAME=value` of the Dockerfile build. */
  datatype BuildArg = BuildArg(name: string, value: string)

  datatype Step =
      /** `docker_build(build_args=...)`, the head of every container here. */
    | DockerBuild(buildArgs: seq<BuildArg>)
      /** `with_mounted_directory(path, dir)`; the directory itself is opaque. */
    | Mount(path: string)
    | Env(name: string, value: string)
      /** `with_exec(argv)`; `expectAny` is `expect=ReturnType.ANY`, i.e. any
          exit code is tolerated instead of failing the evaluation. */
    | Exec(argv: seq<string>, expectAny: bool)
    | Workdir(path: string)

  /** `with_exec(argv)` with the default expectation of exit code zero. */
  function Run(argv: seq<string>): Step {
    Exec(argv, false)
  }

  /** The check that a directory exists, which fails the evaluation otherwise. */
  function Guard(path: string): Step {
    Run(["test", "-d", path])
  }

  /** `r` is `c` with further steps appended and nothing before them changed. */
  predicate Extends(c: seq<Step>, r: seq<Step>) {
    |c| <= |r| && r[..|c|] == c
  }

  predicate Tolerant(s: Step) {
    s.Exec? && s.expectAny
  }

  predicate IsCopy(s: Step) {
    s.Exec? && |s.argv| == 4 && s.argv[0] == "cp" && s.argv[1] == "-r"
  }

  /** Every step fails the evaluation on a non-zero exit code. */
  predicate NoneTolerant(steps: seq<Step>) {
    forall i :: 0 <= i < |steps| ==> !Tolerant(steps[i])
  }

  predicate NoWorkdir(steps: seq<Step>) {
    forall i :: 0 <= i < |steps| ==> !steps[i].Workdir?
  }

  /** Every `cp -r src dst` directly follows `test -d src`. */
  predicate GuardedCopies(steps: seq<Step>) {
    forall j :: 0 <= j < |steps| && IsCopy(steps[j]) ==> 0 < j && steps[j - 1] == Guard(steps[j].argv[2])
  }

  predicate CopiesInto(steps: seq<Step>, dst: string) {
    forall j :: 0 <= j < |steps| && IsCopy(steps[j]) ==> steps[j].argv[3] == dst
  }

  /** The invariant every addon-installation step sequence keeps: nothing
      tolerates a failure, the working directory is left alone, and every
      copy is checked first and lands in `dst`. */
  predicate Disciplined(steps: seq<Step>, dst: string) {
    NoneTolerant(steps) && NoWorkdir(steps) && GuardedCopies(steps) && CopiesInto(steps, dst)
  }

  /** The sources of the `cp -r` steps, in order. */
  function CopiedSources(steps: seq<Step>): seq<string> {
    if |steps| == 0 then []
    else
      var last := steps[|steps| - 1];
      CopiedSources(steps[..|steps| - 1]) + (if IsCopy(last) then [last.argv[2]] else [])
  }

  /** The working directory in effect after `steps`, if any step set one. */
  function CurrentWorkdir(steps: seq<Step>): Option<string> {
    if |steps| == 0 then None
    else if steps[|steps| - 1].Workdir? then Some(steps[|steps| - 1].path)
    else CurrentWorkdir(steps[..|steps| - 1])
  }

  /** Extending `a + b` extends `a`. */
  lemma ExtendsPrefix(a: seq<Step>, b: seq<Step>, r: seq<Step>)
    requires Extends(a + b, r)
    ensures Extends(a, r)
  {
    assert r[..|a|] == (a + b)[..|a|];
  }

  /** The discipline of two step sequences carries over to their concatenation. */
  lemma DisciplinedAppend(a: seq<Step>, b: seq<Step>, dst: string)
    requires Disciplined(a, dst) && Disciplined(b, dst)
    ensures Disciplined(a + b, dst)
  {
    var s := a + b;
    forall j | 0 <= j < |s| && IsCopy(s[j])
      ensures 0 < j && s[j - 1] == Guard(s[j].argv[2])
    {
      if j >= |a| {
        assert s[j] == b[j - |a|];
        assert s[j - 1] == b[j - |a| - 1];
      }
    }
    assert forall j :: 0 <= j < |s| ==> s[j] == (if j < |a| then a[j] else b[j - |a|]);
  }

  /** Steps that neither copy, tolerate a failure nor set a working directory. */
  predicate Plain(steps: seq<Step>) {
    forall i :: 0 <= i < |steps| ==> !IsCopy(steps[i]) && !Tolerant(steps[i]) && !steps[i].Workdir?
  }

  /** The shape of every fetcher: plain steps, a checked copy, plain steps.
      Such a sequence is disciplined and copies exactly the checked source. */
  lemma GuardedCopyDisciplined(pre: seq<Step>, src: string, dst: string, post: seq<Step>)
    requires Plain(pre) && Plain(post)
    ensures var s := pre + [Guard(src), Run(["cp", "-r", src, dst])] + post;
      Disciplined(s, dst) && CopiedSources(s) == [src]
  {
    var copy := Run(["cp", "-r", src, dst]);
    var s := pre + [Guard(src), copy] + post;
    var before := pre + [Guard(src)];
    assert s == before + [copy] + post;
    forall i | 0 <= i < |s|
      ensures !Tolerant(s[i]) && !s[i].Workdir?
      ensures IsCopy(s[i]) ==> i == |pre| + 1
    {
      if i < |pre| {
        assert s[i] == pre[i];
      } else if i >= |pre| + 2 {
        assert s[i] == post[i - |pre| - 2];
      }
    }
    CopiedSourcesOfOne(before, copy, post);
  }

  /** The copies of a sequence with exactly one `cp -r` step are that one. */
  lemma CopiedSourcesOfOne(pre: seq<Step>, copy: Step, post: seq<Step>)
    requires forall i :: 0 <= i < |pre| ==> !IsCopy(pre[i])
    requires forall i :: 0 <= i < |post| ==> !IsCopy(post[i])
    requires IsCopy(copy)
    ensures CopiedSources(pre + [copy] + post) == [copy.argv[2]]
  {
    NoCopiesCopyNothing(pre);
    NoCopiesCopyNothing(post);
    CopiedSourcesAppend(pre + [copy], post);
    CopiedSourcesAppend(pre, [copy]);
    assert [copy][..0] == [];
  }

  lemma {:induction false} NoCopiesCopyNothing(steps: seq<Step>)
    requires forall i :: 0 <= i < |steps| ==> !IsCopy(steps[i])
    ensures CopiedSources(steps) == []
    decreases |steps|
  {
    if |steps| > 0 {
      NoCopiesCopyNothing(steps[..|steps| - 1]);
    }
  }

  /** Copies are collected in order across a concatenation. */
  lemma {:induction false} CopiedSourcesAppend(a: seq<Step>, b: seq<Step>)
    ensures CopiedSources(a + b) == CopiedSources(a) + CopiedSources(b)
    decreases |b|
  {
    if |b| > 0 {
      var b' := b[..|b| - 1];
      assert (a + b)[..|a + b| - 1] == a + b';
      CopiedSourcesAppend(a, b');
    } else {
      assert a + b == a;
    }
  }

  /** Steps that set no working directory leave the one in effect unchanged. */
  lemma {:induction false} CurrentWorkdirAppend(a: seq<Step>, b: seq<Step>)
    requires NoWorkdir(b)
    ensures CurrentWorkdir(a + b) == CurrentWorkdir(a)
    decreases |b|
  {
    if |b| > 0 {
      var b' := b[..|b| - 1];
      assert (a + b)[..|a + b| - 1] == a + b';
      CurrentWorkdirAppend(a, b');
    } else {
      assert a + b == a;
    }
  }

  /** In `steps + [last]`, where `steps` extends `head` and only the added
      part copies and sets no working directory, every copy is checked
      first, lands in `dst`, and runs in the working directory `head` left
      in effect. */
  lemma CopiesUnderWorkdir(head: seq<Step>, steps: seq<Step>, last: Step, wd: string, dst: string)
    requires Extends(head, steps)
    requires CurrentWorkdir(head) == Some(wd)
    requires forall i :: 0 <= i < |head| ==> !IsCopy(head[i])
    requires Disciplined(steps[|head|..], dst)
    requires !IsCopy(last)
    ensures var plan := steps + [last];
      forall j :: 0 <= j < |plan| && IsCopy(plan[j]) ==>
        && 0 < j
        && plan[j - 1] == Guard(plan[j].argv[2])
        && CurrentWorkdir(plan[..j]) == Some(wd)
        && plan[j].argv[3] == dst
  {
    var plan := steps + [last];
    forall j | 0 <= j < |head|
      ensures !IsCopy(plan[j])
    {
      assert plan[j] == head[j];
    }
    forall j | 0 <= j < |plan| && IsCopy(plan[j])
      ensures 0 < j && plan[j - 1] == Guard(plan[j].argv[2])
      ensures CurrentWorkdir(plan[..j]) == Some(wd)
      ensures plan[j].argv[3] == dst
    {
      assert |head| <= j < |steps|;
      assert plan[j] == steps[j] && plan[..j] == steps[..j];
      AddedCopy(head, steps, dst, j);
      WorkdirKept(head, steps, j);
    }
  }

  /** A copy among the added steps is checked first and lands in `dst`. */
  lemma AddedCopy(head: seq<Step>, steps: seq<Step>, dst: string, j: int)
    requires Extends(head, steps) && Disciplined(steps[|head|..], dst)
    requires |head| <= j < |steps| && IsCopy(steps[j])
    ensures 0 < j && steps[j - 1] == Guard(steps[j].argv[2]) && steps[j].argv[3] == dst
  {
    var added := steps[|head|..];
    var k := j - |head|;
    assert added[k] == steps[j];
    assert added[k - 1] == steps[j - 1];
  }

  /** Added steps that set no working directory keep the one `head` left. */
  lemma WorkdirKept(head: seq<Step>, steps: seq<Step>, j: int)
    requires Extends(head, steps) && NoWorkdir(steps[|head|..])
    requires |head| <= j <= |steps|
    ensures CurrentWorkdir(steps[..j]) == CurrentWorkdir(head)
  {
    var between := steps[|head|..j];
    assert steps[..j] == head + between;
    assert forall i :: 0 <= i < |between| ==> between[i] == steps[|head|..][i];
    CurrentWorkdirAppend(head, between);
  }
}
