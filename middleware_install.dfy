/** `MiddlewareInstall` and its `MiddlewareInstallPackage`s: objects whose fields the
    constructor fills, `setResponseFiles` reassigns and `copyFiles` completes, each proved
    against the values of module `MiddlewarePlan`. */
module Middleware {
  import opened Wrappers
  import opened Text
  import opened Folds
  import opened Metadata
  import opened MiddlewarePlan

  class MiddlewareInstallPackage {
    var installerType: InstallerType
    var installer: Option<Architecture>
    var installerPath: string
    var installerFilename: string
    var responseFile: ResponseFile
    var platform: string
    var preinstallCommands: Option<seq<string>>
    var jarName: JString
    var isZip: bool
    var isBin: bool

    function State(): PackageState
      reads this
    {
      PackageState(installerType, installer, installerPath, installerFilename, responseFile, platform,
                   preinstallCommands, jarName, isZip, isBin)
    }

    /** A package whose fields are those of `s`. */
    constructor FromState(s: PackageState)
      ensures State() == s
    {
      installerType := s.installerType;
      installer := s.installer;
      installerPath := s.installerPath;
      installerFilename := s.installerFilename;
      responseFile := s.responseFile;
      platform := s.platform;
      preinstallCommands := s.preinstallCommands;
      jarName := s.jarName;
      isZip := s.isZip;
      isBin := s.isBin;
    }
  }

  /** The fields of the packages, in order. */
  function StatesOf(ps: seq<MiddlewareInstallPackage>): (r: seq<PackageState>)
    reads set p | p in ps
    ensures |r| == |ps| && forall k :: 0 <= k < |ps| ==> r[k] == ps[k].State()
    decreases |ps|
  {
    if ps == [] then [] else StatesOf(ps[..|ps| - 1]) + [ps[|ps| - 1].State()]
  }

  /** No package appears twice. */
  ghost predicate Distinct(ps: seq<MiddlewareInstallPackage>) {
    forall a, b :: 0 <= a < b < |ps| ==> ps[a] != ps[b]
  }

  /** `getJarNameFromInstaller` (lines 73-94): the loop over the archive's entries. */
  method GetJarNameFromInstaller(installerFile: string, zipEntries: ZipReader) returns (r: Result<string, Error>)
    ensures r == JarName(installerFile, zipEntries)
  {
    var name := FileName(installerFile);
    if name.None? {
      return Failure(NullPointer);
    }
    var filename := name.value;
    if EndsWith(filename, ".zip") {
      var zipFile := zipEntries(installerFile);
      if zipFile.None? {
        return Failure(IoFailure(installerFile));
      }
      var entries := zipFile.value;
      var i := 0;
      while i < |entries|
        invariant 0 <= i <= |entries|
        invariant forall j :: 0 <= j < i ==> !IsInstallerEntry(entries[j])
      {
        var entryName := entries[i];
        if EndsWith(entryName, ".jar") || EndsWith(entryName, ".bin") {
          filename := entryName;
          break;
        }
        i := i + 1;
      }
    }
    return Success(filename);
  }

  class MiddlewareInstall {
    var installerFiles: seq<MiddlewareInstallPackage>
    const fmwInstallerType: FmwInstallerType

    /** Every package is its own object and is named after the last component of its path. */
    ghost predicate Valid()
      reads this, set p | p in installerFiles
    {
      Distinct(installerFiles) && Named(StatesOf(installerFiles))
    }

    /** The empty install before any package is added. */
    constructor Init(fmw: FmwInstallerType)
      ensures installerFiles == [] && fmwInstallerType == fmw && Valid()
    {
      installerFiles := [];
      fmwInstallerType := fmw;
    }

    /** The constructor (lines 41-71): a package for every installer of the stack and every
        build platform, in nested-loop order, then the response files. A missing
        configuration entry aborts before any response file is looked at. */
    static method Create(fmw: FmwInstallerType, version: string, responseFiles: Option<seq<string>>,
                         buildPlatform: seq<string>, consts: BuildConstants, resolve: Resolver,
                         isRegularFile: string -> bool)
      returns (r: Result<MiddlewareInstall, Error>)
      ensures Plan(fmw, version, buildPlatform, consts, resolve).Failure? ==>
        r == Failure(Plan(fmw, version, buildPlatform, consts, resolve).error)
      ensures Plan(fmw, version, buildPlatform, consts, resolve).Success? ==>
        var plan := Plan(fmw, version, buildPlatform, consts, resolve).value;
        match ResponseFilesCheck(responseFiles, |plan|, isRegularFile)
        case Fail(e) => r == Failure(e)
        case Pass =>
          && r.Success? && fresh(r.value) && r.value.fmwInstallerType == fmw && r.value.Valid()
          && (forall p :: p in r.value.installerFiles ==> fresh(p))
          && StatesOf(r.value.installerFiles) == WithResponseFiles(plan, responseFiles, isRegularFile)
    {
      var planned := PlanPackages(fmw, version, buildPlatform, consts, resolve);
      if planned.Failure? {
        return Failure(planned.error);
      }
      ghost var plan := Plan(fmw, version, buildPlatform, consts, resolve).value;
      PlanNamed(fmw, version, buildPlatform, consts, resolve);
      var m := new MiddlewareInstall.Init(fmw);
      m.installerFiles := planned.value;
      StatesAre(m.installerFiles, plan);
      var outcome := m.SetResponseFiles(responseFiles, isRegularFile);
      ResponseFilesNamed(plan, responseFiles, isRegularFile);
      if outcome.Fail? {
        return Failure(outcome.error);
      }
      return Success(m);
    }

    /** The packages of the constructor's nested loops (lines 44-67), each a new object. */
    static method PlanPackages(fmw: FmwInstallerType, version: string, buildPlatform: seq<string>,
                               consts: BuildConstants, resolve: Resolver)
      returns (r: Result<seq<MiddlewareInstallPackage>, Error>)
      ensures Plan(fmw, version, buildPlatform, consts, resolve).Failure? ==>
        r == Failure(Plan(fmw, version, buildPlatform, consts, resolve).error)
      ensures Plan(fmw, version, buildPlatform, consts, resolve).Success? ==>
        var plan := Plan(fmw, version, buildPlatform, consts, resolve).value;
        && r.Success? && Distinct(r.value) && (forall p :: p in r.value ==> fresh(p)) && |r.value| == |plan|
        && forall k :: 0 <= k < |plan| ==> r.value[k].State() == plan[k]
    {
      var types := fmw.installerList;
      var f := PlanEntry(fmw, version, consts, resolve);
      var pkgs: seq<MiddlewareInstallPackage> := [];
      ghost var planned: seq<PackageState> := [];
      var i := 0;
      while i < |types|
        invariant 0 <= i <= |types|
        invariant MapAll(Pairs(types[..i], buildPlatform), f) == Success(planned)
        invariant |pkgs| == |planned| && Distinct(pkgs) && forall p :: p in pkgs ==> fresh(p)
        invariant forall k {:trigger planned[k]} :: 0 <= k < |planned| ==> pkgs[k].State() == planned[k]
      {
        var row := PlanRow(types[i], buildPlatform, f);
        PairsStep(types, buildPlatform, f, i);
        if row.Failure? {
          return Failure(row.error);
        }
        ghost var next := MapAll(Row(types[i], buildPlatform), f).value;
        Appended(pkgs, row.value, planned, next);
        pkgs := pkgs + row.value;
        planned := planned + next;
        i := i + 1;
      }
      assert types[..i] == types;
      return Success(pkgs);
    }

    /** The inner loop of the constructor (lines 46-66): the packages of one installer type,
        one per build platform. */
    static method PlanRow(t: InstallerType, buildPlatform: seq<string>, f: PlanEntryFn)
      returns (r: Result<seq<MiddlewareInstallPackage>, Error>)
      ensures match MapAll(Row(t, buildPlatform), f)
        case Failure(e) => r == Failure(e)
        case Success(row) =>
          && r.Success? && Distinct(r.value) && (forall p :: p in r.value ==> fresh(p)) && |r.value| == |row|
          && forall k :: 0 <= k < |row| ==> r.value[k].State() == row[k]
    {
      var pkgs: seq<MiddlewareInstallPackage> := [];
      ghost var planned: seq<PackageState> := [];
      var j := 0;
      while j < |buildPlatform|
        invariant 0 <= j <= |buildPlatform|
        invariant MapAll(Row(t, buildPlatform[..j]), f) == Success(planned)
        invariant |pkgs| == |planned| && Distinct(pkgs) && forall p :: p in pkgs ==> fresh(p)
        invariant forall k {:trigger planned[k]} :: 0 <= k < |planned| ==> pkgs[k].State() == planned[k]
      {
        var platform := buildPlatform[j];
        var pkg := f((t, platform));
        RowEntryStep(t, buildPlatform, f, j);
        if pkg.Failure? {
          return Failure(pkg.error);
        }
        var p := new MiddlewareInstallPackage.FromState(pkg.value);
        pkgs := pkgs + [p];
        planned := planned + [pkg.value];
        j := j + 1;
      }
      assert buildPlatform[..j] == buildPlatform;
      return Success(pkgs);
    }

    /** `setResponseFiles` (lines 133-157): response file k goes to package k, once the
        number of files matches; the first file that is not a regular file stops it. */
    method SetResponseFiles(responseFiles: Option<seq<string>>, isRegularFile: string -> bool)
      returns (r: Outcome<Error>)
      requires Valid()
      modifies set p | p in installerFiles
      ensures r == ResponseFilesCheck(responseFiles, |installerFiles|, isRegularFile)
      ensures StatesOf(installerFiles) == WithResponseFiles(old(StatesOf(installerFiles)), responseFiles, isRegularFile)
      ensures Valid()
    {
      ghost var before := StatesOf(installerFiles);
      ResponseFilesNamed(before, responseFiles, isRegularFile);
      if responseFiles.None? || responseFiles.value == [] {
        return Pass;
      }
      var files := responseFiles.value;
      if |files| != |installerFiles| {
        return Fail(IllegalArgument(|files|, |installerFiles|));
      }
      var i := AssignResponseFiles(installerFiles, before, files, isRegularFile);
      Assigned(installerFiles, before, files, i);
      if i < |files| {
        return Fail(FileNotFound(files[i]));
      }
      return Pass;
    }

    /** The loop of `setResponseFiles` (lines 146-154): file k goes to package k until the
        first file that is not a regular file, whose index is returned. */
    static method AssignResponseFiles(pkgs: seq<MiddlewareInstallPackage>, ghost before: seq<PackageState>,
                                      files: seq<string>, isRegularFile: string -> bool)
      returns (i: nat)
      requires Distinct(pkgs) && |files| == |pkgs| == |before|
      requires forall k :: 0 <= k < |pkgs| ==> pkgs[k].State() == before[k]
      modifies set p | p in pkgs
      ensures i == FirstIrregular(files, isRegularFile)
      ensures forall k {:trigger files[k]} :: 0 <= k < i ==>
        pkgs[k].State() == before[k].(responseFile := ProvidedResponseFile(files[k]))
      ensures forall k {:trigger before[k]} :: i <= k < |pkgs| ==> pkgs[k].State() == before[k]
    {
      i := 0;
      while i < |pkgs| && isRegularFile(files[i])
        invariant i <= |pkgs|
        invariant forall j :: 0 <= j < i ==> isRegularFile(files[j])
        invariant forall k {:trigger files[k]} :: 0 <= k < i ==>
          pkgs[k].State() == before[k].(responseFile := ProvidedResponseFile(files[k]))
        invariant forall k {:trigger before[k]} :: i <= k < |pkgs| ==> pkgs[k].State() == before[k]
      {
        var pkg := pkgs[i];
        assert forall k :: 0 <= k < |pkgs| && k != i ==> pkgs[k] != pkg;
        pkg.responseFile := ProvidedResponseFile(files[i]);
        i := i + 1;
      }
      assert FirstIrregular(files, isRegularFile) == i;
    }

    /** `copyFiles` (lines 102-123): every package is copied into its platform's directory,
        its jar name and flags are set, and its response file is written beside it; the
        first failing operation stops it. `actions` lists the operations carried out. */
    method CopyFiles(buildContextDir: string, consts: BuildConstants, io: StagingIo)
      returns (r: Outcome<Error>, actions: seq<Action>)
      requires Valid()
      modifies set p | p in installerFiles
      ensures var p := StageAll(old(StatesOf(installerFiles)), Stage(buildContextDir, consts, io));
        r == p.outcome && StatesOf(installerFiles) == p.states && actions == p.actions
      ensures Valid()
    {
      ghost var before := StatesOf(installerFiles);
      ghost var staged; var n;
      r, actions, staged, n := StageEach(installerFiles, before, buildContextDir, consts, io);
      Spliced(installerFiles, staged, before, n);
      StagedNamed(before, buildContextDir, consts, io);
    }

    /** The loop of `copyFiles` (lines 105-121): the first n packages are staged, after which
        either all are or package n - 1 failed; the rest are untouched. */
    static method StageEach(pkgs: seq<MiddlewareInstallPackage>, ghost before: seq<PackageState>,
                            buildContextDir: string, consts: BuildConstants, io: StagingIo)
      returns (r: Outcome<Error>, actions: seq<Action>, ghost staged: seq<PackageState>, i: nat)
      requires Distinct(pkgs) && |pkgs| == |before|
      requires forall k :: 0 <= k < |pkgs| ==> pkgs[k].State() == before[k]
      modifies set p | p in pkgs
      ensures i <= |pkgs| && |staged| == i
      ensures StageAll(before, Stage(buildContextDir, consts, io)) == Progress(r, staged + before[i..], actions)
      ensures forall k {:trigger staged[k]} :: 0 <= k < i ==> pkgs[k].State() == staged[k]
      ensures forall k {:trigger before[k]} :: i <= k < |pkgs| ==> pkgs[k].State() == before[k]
    {
      staged := [];
      ghost var stage := Stage(buildContextDir, consts, io);
      r, actions := Pass, [];
      i := 0;
      while i < |pkgs| && r.Pass?
        invariant i <= |pkgs| && |staged| == i
        invariant Reached(before, i, r, staged, actions, stage)
        invariant forall k {:trigger staged[k]} :: 0 <= k < i ==> pkgs[k].State() == staged[k]
        invariant forall k {:trigger before[k]} :: i <= k < |pkgs| ==> pkgs[k].State() == before[k]
      {
        var installPackage := pkgs[i];
        ghost var one := stage(before[i]);
        ReachedStep(before, i, staged, actions, stage);
        assert forall k :: 0 <= k < |pkgs| && k != i ==> pkgs[k] != installPackage;
        var done;
        r, done := StagePackage(installPackage, buildContextDir, consts, io);
        actions := actions + done;
        staged := staged + [one.state];
        i := i + 1;
      }
      ReachedEnd(before, i, r, staged, actions, stage);
    }
  }

  /** One iteration of `copyFiles` (lines 106-120) on one package. */
  method StagePackage(installPackage: MiddlewareInstallPackage, buildContextDir: string, consts: BuildConstants,
                      io: StagingIo)
    returns (r: Outcome<Error>, actions: seq<Action>)
    modifies installPackage
    ensures var one := Stage(buildContextDir, consts, io)(old(installPackage.State()));
      installPackage.State() == one.state && r == one.outcome && actions == one.actions
  {
    var buildContextDestination := Destination(buildContextDir, installPackage.platform, consts);
    var name := FileName(installPackage.installerPath);
    if name.None? {
      return Fail(NullPointer), [];
    }
    var copied := io.copy(installPackage.installerPath, buildContextDestination, name.value);
    if !copied {
      return Fail(IoFailure(installPackage.installerPath)), [];
    }
    actions := [CopyInstaller(installPackage.installerPath, buildContextDestination, name.value)];
    var jar := GetJarNameFromInstaller(installPackage.installerPath, io.zipEntries);
    if jar.Failure? {
      return Fail(jar.error), actions;
    }
    installPackage.jarName := Some(jar.value);
    installPackage.isZip := EndsWith(installPackage.installerFilename, ".zip");
    installPackage.isBin := EndsWith(jar.value, ".bin");
    var written := io.copyResponseFile(installPackage.responseFile, buildContextDestination);
    if !written {
      return Fail(IoFailure(buildContextDestination)), actions;
    }
    actions := actions + [CopyResponseFile(installPackage.responseFile, buildContextDestination)];
    return Pass, actions;
  }

  /** Every package is named after the last component of its path. */
  ghost predicate Named(states: seq<PackageState>) {
    forall k :: 0 <= k < |states| ==> FileName(states[k].installerPath) == Some(states[k].installerFilename)
  }

  /** Where `copyFiles` stands after the first i packages: still passing with the states and
      actions of staging them, or stopped with the states and actions of the whole staging. */
  ghost predicate Reached(before: seq<PackageState>, i: nat, r: Outcome<Error>, staged: seq<PackageState>,
                          actions: seq<Action>, stage: Stager)
  {
    && i <= |before|
    && if r.Pass? then StageAll(before[..i], stage) == Progress(Pass, staged, actions)
       else StageAll(before, stage) == Progress(r, staged + before[i..], actions)
  }

  /** Staging package i after the first i passed reaches i + 1 with its result. */
  lemma ReachedStep(before: seq<PackageState>, i: nat, staged: seq<PackageState>, actions: seq<Action>,
                    stage: Stager)
    requires i < |before| && Reached(before, i, Pass, staged, actions, stage)
    ensures var one := stage(before[i]);
            Reached(before, i + 1, one.outcome, staged + [one.state], actions + one.actions, stage)
  {
    assert before[..i + 1][..i] == before[..i];
    if stage(before[i]).outcome.Fail? {
      StageAllStopped(before, stage, i);
    }
  }

  /** Once every package is staged or one has failed, the whole staging is reached. */
  lemma ReachedEnd(before: seq<PackageState>, i: nat, r: Outcome<Error>, staged: seq<PackageState>,
                   actions: seq<Action>, stage: Stager)
    requires Reached(before, i, r, staged, actions, stage)
    requires i == |before| || r.Fail?
    ensures StageAll(before, stage) == Progress(r, staged + before[i..], actions)
  {
    if r.Pass? {
      assert before[..i] == before && staged + before[i..] == staged;
    }
  }

  /** Packages whose first n states are `staged` and the rest still `before` have the
      states `staged + before[n..]`. */
  lemma Spliced(ps: seq<MiddlewareInstallPackage>, staged: seq<PackageState>, before: seq<PackageState>, n: nat)
    requires |staged| == n <= |ps| == |before|
    requires forall k :: 0 <= k < n ==> ps[k].State() == staged[k]
    requires forall k :: n <= k < |ps| ==> ps[k].State() == before[k]
    ensures StatesOf(ps) == staged + before[n..]
  {
    var expected := staged + before[n..];
    forall k | 0 <= k < |ps|
      ensures ps[k].State() == expected[k]
    {
      if k < n {
        assert expected[k] == staged[k];
      } else {
        assert expected[k] == before[n..][k - n];
      }
    }
    StatesAre(ps, expected);
  }

  lemma StatesAre(ps: seq<MiddlewareInstallPackage>, expected: seq<PackageState>)
    requires |ps| == |expected| && forall k :: 0 <= k < |ps| ==> ps[k].State() == expected[k]
    ensures StatesOf(ps) == expected
  {
  }

  /** The packages whose first n carry their response files are `AssignedUpTo` n. */
  lemma Assigned(ps: seq<MiddlewareInstallPackage>, before: seq<PackageState>, files: seq<string>, n: nat)
    requires |ps| == |before| == |files| && n <= |ps|
    requires forall k {:trigger files[k]} :: 0 <= k < n ==>
      ps[k].State() == before[k].(responseFile := ProvidedResponseFile(files[k]))
    requires forall k {:trigger before[k]} :: n <= k < |ps| ==> ps[k].State() == before[k]
    ensures StatesOf(ps) == AssignedUpTo(before, files, n)
  {
    var expected := AssignedUpTo(before, files, n);
    forall k | 0 <= k < |ps|
      ensures ps[k].State() == expected[k]
    {
      if k < n {
        assert ps[k].State() == before[k].(responseFile := ProvidedResponseFile(files[k]));
      } else {
        assert ps[k].State() == before[k];
      }
    }
    StatesAre(ps, expected);
  }

  /** The packages once the first n of them have their response files. */
  function AssignedUpTo(states: seq<PackageState>, files: seq<string>, n: nat): (r: seq<PackageState>)
    requires |files| == |states|
    ensures |r| == |states|
  {
    seq(|states|, k requires 0 <= k < |states| =>
      if k < n then states[k].(responseFile := ProvidedResponseFile(files[k])) else states[k])
  }

  lemma ResponseFilesNamed(states: seq<PackageState>, files: Option<seq<string>>, isRegularFile: string -> bool)
    ensures Named(states) ==> Named(WithResponseFiles(states, files, isRegularFile))
    ensures files.Some? && |files.value| == |states| ==>
      WithResponseFiles(states, files, isRegularFile) ==
        AssignedUpTo(states, files.value, Reassigned(files, |states|, isRegularFile))
  {
  }

  /** Staging keeps every package's path and file name, so named packages stay named. */
  lemma {:induction false} StagedNamed(states: seq<PackageState>, buildContextDir: string, consts: BuildConstants,
                                       io: StagingIo)
    requires Named(states)
    ensures Named(StageAll(states, Stage(buildContextDir, consts, io)).states)
    decreases |states|
  {
    if states != [] {
      var stage := Stage(buildContextDir, consts, io);
      var init := states[..|states| - 1];
      var last := states[|states| - 1];
      assert forall k :: 0 <= k < |init| ==> init[k] == states[k];
      StagedNamed(init, buildContextDir, consts, io);
      var prev := StageAll(init, stage);
      if prev.outcome.Pass? {
        StageOneEffects(last, buildContextDir, consts, io);
        var one := stage(last);
        assert one.state.installerPath == last.installerPath && one.state.installerFilename == last.installerFilename;
        assert StageAll(states, stage).states == prev.states + [one.state];
      } else {
        assert StageAll(states, stage).states == prev.states + [last];
      }
    }
  }

  /** A planned package is named after the last component of its configured location. */
  lemma PlanNamed(fmw: FmwInstallerType, version: string, platforms: seq<string>, consts: BuildConstants,
                  resolve: Resolver)
    requires Plan(fmw, version, platforms, consts, resolve).Success?
    ensures Named(Plan(fmw, version, platforms, consts, resolve).value)
  {
    var ps := Pairs(fmw.installerList, platforms);
    var f := PlanEntry(fmw, version, consts, resolve);
    var plan := Plan(fmw, version, platforms, consts, resolve).value;
    forall k | 0 <= k < |plan|
      ensures FileName(plan[k].installerPath) == Some(plan[k].installerFilename)
    {
      assert plan[k] == f(ps[k]).value;
    }
  }

  /** The first j + 1 pairs of a row are its first j pairs and pair j. */
  lemma RowStep(t: InstallerType, platforms: seq<string>, j: nat)
    requires j < |platforms|
    ensures Row(t, platforms[..j + 1]) == Row(t, platforms[..j]) + [(t, platforms[j])]
    ensures Row(t, platforms)[..j] == Row(t, platforms[..j])
  {
  }

  /** The row of the first j + 1 platforms: the first j, then the entry of platform j; a
      failing entry is the failure of the whole row. */
  lemma RowEntryStep(t: InstallerType, platforms: seq<string>,
                     f: PlanEntryFn, j: nat)
    requires j < |platforms| && MapAll(Row(t, platforms[..j]), f).Success?
    ensures f((t, platforms[j])).Failure? ==> MapAll(Row(t, platforms), f) == Failure(f((t, platforms[j])).error)
    ensures f((t, platforms[j])).Success? ==>
      MapAll(Row(t, platforms[..j + 1]), f) ==
        Success(MapAll(Row(t, platforms[..j]), f).value + [f((t, platforms[j])).value])
  {
    RowStep(t, platforms, j);
    if f((t, platforms[j])).Failure? {
      MapAllFailsAt(Row(t, platforms), f, j);
    } else {
      MapAllStep(Row(t, platforms[..j]), f, (t, platforms[j]));
    }
  }

  /** Packages appended to distinct packages allocated before them stay distinct and keep
      their states in order. */
  lemma Appended(front: seq<MiddlewareInstallPackage>, back: seq<MiddlewareInstallPackage>,
                 frontStates: seq<PackageState>, backStates: seq<PackageState>)
    requires Distinct(front) && Distinct(back) && (forall p, q :: p in front && q in back ==> p != q)
    requires |front| == |frontStates| && |back| == |backStates|
    requires forall k :: 0 <= k < |front| ==> front[k].State() == frontStates[k]
    requires forall k :: 0 <= k < |back| ==> back[k].State() == backStates[k]
    ensures Distinct(front + back)
    ensures forall k :: 0 <= k < |front| + |back| ==> (front + back)[k].State() == (frontStates + backStates)[k]
  {
    var all := front + back;
    forall a, b | 0 <= a < b < |all|
      ensures all[a] != all[b]
    {
      if b < |front| {
        assert all[a] == front[a] && all[b] == front[b];
      } else if a >= |front| {
        assert all[a] == back[a - |front|] && all[b] == back[b - |front|];
      } else {
        assert all[a] == front[a] && all[b] == back[b - |front|];
        assert front[a] in front && back[b - |front|] in back;
      }
    }
  }

  /** The plan of the first i + 1 installers: the first i, then the row of installer i; a
      failing row is the failure of the whole plan. */
  lemma PairsStep(types: seq<InstallerType>, platforms: seq<string>,
                  f: PlanEntryFn, i: nat)
    requires i < |types| && MapAll(Pairs(types[..i], platforms), f).Success?
    ensures MapAll(Row(types[i], platforms), f).Failure? ==>
      MapAll(Pairs(types, platforms), f) == Failure(MapAll(Row(types[i], platforms), f).error)
    ensures MapAll(Row(types[i], platforms), f).Success? ==>
      MapAll(Pairs(types[..i + 1], platforms), f) ==
        Success(MapAll(Pairs(types[..i], platforms), f).value + MapAll(Row(types[i], platforms), f).value)
  {
    assert types[..i + 1][..i] == types[..i];
    MapAllConcat(Pairs(types[..i], platforms), Row(types[i], platforms), f);
    if MapAll(Row(types[i], platforms), f).Failure? {
      PrefixFails(types, platforms, f, i + 1);
    }
  }

  /** A plan whose first i installers already fail fails with the same exception. */
  lemma PrefixFails(types: seq<InstallerType>, platforms: seq<string>,
                    f: PlanEntryFn, i: nat)
    requires i <= |types| && MapAll(Pairs(types[..i], platforms), f).Failure?
    ensures MapAll(Pairs(types, platforms), f) == MapAll(Pairs(types[..i], platforms), f)
  {
    assert types == types[..i] + types[i..];
    PairsConcat(types[..i], types[i..], platforms);
    MapAllConcat(Pairs(types[..i], platforms), Pairs(types[i..], platforms), f);
  }
}
