/** The values behind `MiddlewareInstall`: the packages its constructor plans, one per
    installer of the stack and build platform, the response-file assignment, the jar-name
    lookup inside an installer archive, and the staging of each package into the build
    context directory. The classes that hold these values are in module `Middleware`. */
module MiddlewarePlan {
  import opened Wrappers
  import opened Text
  import opened Folds
  import opened Metadata

  /** Platform names of the two supported build platforms and the prefix of their
      build-context subdirectories (`AMD64_BLD`, `ARM64_BLD`, `CTX_FMW`). */
  datatype BuildConstants = BuildConstants(amd64: string, arm64: string, ctxFmw: string)

  datatype Architecture = AMD64 | ARM64

  /** A middleware install type and the installers it stacks, in install order. */
  datatype FmwInstallerType = FmwInstallerType(name: string, installerList: seq<InstallerType>)

  datatype ResponseFile =
    | DefaultResponseFile(installerType: InstallerType, fmwType: FmwInstallerType)
    | ProvidedResponseFile(path: string)

  /** The command every DB19 package runs before its installer. */
  const DB19PreinstallCommand: string := "34761383/changePerm.sh /u01/oracle"

  /** The fields of one `MiddlewareInstallPackage`; `installer` is the architecture of
      its `CachedFile`, when one is made. */
  datatype PackageState = PackageState(
    installerType: InstallerType,
    installer: Option<Architecture>,
    installerPath: string,
    installerFilename: string,
    responseFile: ResponseFile,
    platform: string,
    preinstallCommands: Option<seq<string>>,
    jarName: JString,
    isZip: bool,
    isBin: bool)

  /** The configured installer for (type, platform, version), `null`, or the exception the
      lookup throws. */
  type Resolver = (InstallerType, string, string) -> Result<Option<InstallerMetaData>, Error>

  // ---------------------------------------------------------------- the plan

  /** The platforms in order, paired with one installer type. */
  function Row(t: InstallerType, platforms: seq<string>): (r: seq<(InstallerType, string)>)
    ensures |r| == |platforms| && forall j :: 0 <= j < |platforms| ==> r[j] == (t, platforms[j])
  {
    seq(|platforms|, j requires 0 <= j < |platforms| => (t, platforms[j]))
  }

  /** (installer, platform) in nested-loop order: installer-major, platform-minor. */
  function Pairs(types: seq<InstallerType>, platforms: seq<string>): seq<(InstallerType, string)>
    decreases |types|
  {
    if types == [] then []
    else Pairs(types[..|types| - 1], platforms) + Row(types[|types| - 1], platforms)
  }

  lemma {:induction false} PairsConcat(a: seq<InstallerType>, b: seq<InstallerType>, platforms: seq<string>)
    ensures Pairs(a + b, platforms) == Pairs(a, platforms) + Pairs(b, platforms)
    decreases |b|
  {
    if b != [] {
      var b' := b[..|b| - 1];
      assert (a + b)[..|a + b| - 1] == a + b';
      PairsConcat(a, b', platforms);
    } else {
      assert a + b == a;
    }
  }

  /** One pair per installer and platform. */
  lemma {:induction false} PairsLength(types: seq<InstallerType>, platforms: seq<string>)
    ensures |Pairs(types, platforms)| == |types| * |platforms|
    decreases |types|
  {
    if types != [] {
      var init := types[..|types| - 1];
      PairsLength(init, platforms);
      MulSucc(|init|, |platforms|);
      assert init + [types[|types| - 1]] == types;
    }
  }

  /** The pair for installer i and platform j sits at position i * |platforms| + j. */
  lemma {:induction false} PairAt(types: seq<InstallerType>, platforms: seq<string>, i: nat, j: nat)
    requires i < |types| && j < |platforms|
    ensures |Pairs(types, platforms)| == |types| * |platforms|
    ensures i * |platforms| + j < |Pairs(types, platforms)|
    ensures Pairs(types, platforms)[i * |platforms| + j] == (types[i], platforms[j])
    decreases |types|
  {
    var init := types[..|types| - 1];
    var n := |platforms|;
    PairsLength(types, platforms);
    PairsLength(init, platforms);
    assert |types| * n == |init| * n + n;
    if i < |init| {
      PairAt(init, platforms, i, j);
      assert init[i] == types[i];
    } else {
      assert i * n == |init| * n;
    }
  }

  lemma MulSucc(a: nat, n: nat)
    ensures (a + 1) * n == a * n + n
  {
  }

  /** Every position of the pairs holds some installer and some platform. */
  lemma {:induction false} PairOf(types: seq<InstallerType>, platforms: seq<string>, k: nat) returns (i: nat, j: nat)
    requires k < |Pairs(types, platforms)|
    ensures i < |types| && j < |platforms| && Pairs(types, platforms)[k] == (types[i], platforms[j])
    decreases |types|
  {
    var init := types[..|types| - 1];
    var front := Pairs(init, platforms);
    if k < |front| {
      i, j := PairOf(init, platforms, k);
      assert init[i] == types[i];
    } else {
      i, j := |types| - 1, k - |front|;
    }
  }

  /** One planned package (lines 49-65): an exception of the lookup propagates, and a missing
      configuration entry, a `null` location or a location without a file name is
      dereferenced and throws. */
  function PackageFor(t: InstallerType, fmw: FmwInstallerType, version: string, platform: string,
                      consts: BuildConstants, resolve: Resolver): (r: Result<PackageState, Error>)
    ensures resolve(t, platform, version).Failure? ==> r == Failure(resolve(t, platform, version).error)
    ensures resolve(t, platform, version).Success? && r.Failure? ==> r.error == NullPointer
    ensures r.Success? <==>
      resolve(t, platform, version).Success? && resolve(t, platform, version).value.Some?
      && resolve(t, platform, version).value.value.location.Some?
      && FileName(resolve(t, platform, version).value.value.location.value).Some?
    ensures r.Success? ==>
      && r.value.installerType == t && r.value.platform == platform
      && r.value.installerPath == resolve(t, platform, version).value.value.location.value
      && FileName(r.value.installerPath) == Some(r.value.installerFilename)
      && r.value.responseFile == DefaultResponseFile(t, fmw)
      && (r.value.preinstallCommands.Some? <==> t == DB19)
      && r.value.jarName.None? && !r.value.isZip && !r.value.isBin
      && r.value.installer == (if platform == consts.arm64 then Some(ARM64)
                               else if platform == consts.amd64 then Some(AMD64) else None)
  {
    var installer := if platform == consts.arm64 then Some(ARM64)
                     else if platform == consts.amd64 then Some(AMD64)
                     else None;
    var found :- resolve(t, platform, version);
    match found
    case None => Failure(NullPointer)
    case Some(metaData) =>
      match metaData.location
      case None => Failure(NullPointer)
      case Some(location) =>
        match FileName(location)
        case None => Failure(NullPointer)
        case Some(filename) =>
          Success(PackageState(t, installer, location, filename, DefaultResponseFile(t, fmw), platform,
                               if t == DB19 then Some([DB19PreinstallCommand]) else None,
                               None, false, false))
  }

  /** The package planned for one installer type and platform, or the exception. */
  type PlanEntryFn = ((InstallerType, string)) -> Result<PackageState, Error>

  function PlanEntry(fmw: FmwInstallerType, version: string, consts: BuildConstants, resolve: Resolver): PlanEntryFn
  {
    (pair: (InstallerType, string)) => PackageFor(pair.0, fmw, version, pair.1, consts, resolve)
  }

  /** The packages the constructor plans before it looks at response files. */
  function Plan(fmw: FmwInstallerType, version: string, platforms: seq<string>, consts: BuildConstants,
                resolve: Resolver): Result<seq<PackageState>, Error>
  {
    MapAll(Pairs(fmw.installerList, platforms), PlanEntry(fmw, version, consts, resolve))
  }

  /** Package p is what the constructor plans for installer t on a platform: tagged with both,
      cached for the architecture of a build platform (ARM64 when both constants are the
      platform, since that test comes second), at the configured location and named after
      its last component, with the default response file, and with the DB19 pre-install
      command on DB19 alone. */
  predicate PlannedAs(p: PackageState, t: InstallerType, fmw: FmwInstallerType, version: string, platform: string,
                      consts: BuildConstants, resolve: Resolver)
  {
    && p.installerType == t && p.platform == platform
    && p.installer == (if platform == consts.arm64 then Some(ARM64)
                       else if platform == consts.amd64 then Some(AMD64) else None)
    && resolve(t, platform, version).Success? && resolve(t, platform, version).value.Some?
    && resolve(t, platform, version).value.value.location == Some(p.installerPath)
    && FileName(p.installerPath) == Some(p.installerFilename)
    && p.responseFile == DefaultResponseFile(t, fmw)
    && p.preinstallCommands == (if t == DB19 then Some([DB19PreinstallCommand]) else None)
  }

  /** The plan has one package per installer and platform, installer-major: the package of
      installer i and platform j sits at i * |platforms| + j and is planned for that pair. */
  lemma PlanShape(fmw: FmwInstallerType, version: string, platforms: seq<string>, consts: BuildConstants,
                  resolve: Resolver, i: nat, j: nat)
    requires Plan(fmw, version, platforms, consts, resolve).Success?
    requires i < |fmw.installerList| && j < |platforms|
    ensures |Plan(fmw, version, platforms, consts, resolve).value| == |fmw.installerList| * |platforms|
    ensures i * |platforms| + j < |fmw.installerList| * |platforms|
    ensures PlannedAs(Plan(fmw, version, platforms, consts, resolve).value[i * |platforms| + j],
                      fmw.installerList[i], fmw, version, platforms[j], consts, resolve)
  {
    PairAt(fmw.installerList, platforms, i, j);
    var k := i * |platforms| + j;
    var pkg := PackageFor(fmw.installerList[i], fmw, version, platforms[j], consts, resolve);
    assert Plan(fmw, version, platforms, consts, resolve).value[k] == pkg.value;
  }

  /** A failed plan fails at some installer and platform, with the exception the lookup
      threw there or, when the lookup answered, with `NullPointerException`. */
  lemma PlanFailure(fmw: FmwInstallerType, version: string, platforms: seq<string>, consts: BuildConstants,
                    resolve: Resolver)
    requires Plan(fmw, version, platforms, consts, resolve).Failure?
    ensures exists i, j ::
              && 0 <= i < |fmw.installerList| && 0 <= j < |platforms|
              && PackageFor(fmw.installerList[i], fmw, version, platforms[j], consts, resolve)
                 == Failure(Plan(fmw, version, platforms, consts, resolve).error)
              && (resolve(fmw.installerList[i], platforms[j], version).Failure? ||
                  Plan(fmw, version, platforms, consts, resolve).error == NullPointer)
  {
    var ps := Pairs(fmw.installerList, platforms);
    var f := PlanEntry(fmw, version, consts, resolve);
    var k :| 0 <= k < |ps| && f(ps[k]) == Failure(Plan(fmw, version, platforms, consts, resolve).error);
    var i, j := PairOf(fmw.installerList, platforms, k);
  }

  /** A plan fails whenever some installer and platform has no usable configured location. */
  lemma PlanFailsAt(fmw: FmwInstallerType, version: string, platforms: seq<string>, consts: BuildConstants,
                    resolve: Resolver, i: nat, j: nat)
    requires i < |fmw.installerList| && j < |platforms|
    requires PackageFor(fmw.installerList[i], fmw, version, platforms[j], consts, resolve).Failure?
    ensures Plan(fmw, version, platforms, consts, resolve).Failure?
  {
    PairAt(fmw.installerList, platforms, i, j);
    var f := PlanEntry(fmw, version, consts, resolve);
    assert f(Pairs(fmw.installerList, platforms)[i * |platforms| + j]).Failure?;
  }

  // ---------------------------------------------------------------- response files

  /** The index of the first path that is not a regular file, or |files| when all are. */
  function FirstIrregular(files: seq<string>, isRegularFile: string -> bool): (k: nat)
    ensures k <= |files|
    ensures k < |files| ==> !isRegularFile(files[k])
    ensures forall j :: 0 <= j < k ==> isRegularFile(files[j])
    decreases |files|
  {
    if files == [] then 0
    else if !isRegularFile(files[0]) then 0
    else 1 + FirstIrregular(files[1..], isRegularFile)
  }

  /** What `setResponseFiles` (lines 133-157) throws for `count` packages. */
  function ResponseFilesCheck(files: Option<seq<string>>, count: nat, isRegularFile: string -> bool): (r: Outcome<Error>)
    ensures r.Pass? <==>
      files.None? || files.value == [] || (|files.value| == count && forall k :: 0 <= k < count ==> isRegularFile(files.value[k]))
    ensures r.Fail? && r.error.IllegalArgument? <==> files.Some? && files.value != [] && |files.value| != count
    ensures r.Fail? && r.error.IllegalArgument? ==> r.error == IllegalArgument(|files.value|, count)
    ensures r.Fail? && !r.error.IllegalArgument? ==>
      r.error.FileNotFound? && r.error.path == files.value[FirstIrregular(files.value, isRegularFile)]
  {
    if files.None? || files.value == [] then Pass
    else if |files.value| != count then Fail(IllegalArgument(|files.value|, count))
    else
      var k := FirstIrregular(files.value, isRegularFile);
      if k < count then Fail(FileNotFound(files.value[k])) else Pass
  }

  /** How many packages, from the first, get a provided response file before the check stops. */
  function Reassigned(files: Option<seq<string>>, count: nat, isRegularFile: string -> bool): (n: nat)
    ensures n <= count
    ensures n > 0 ==> files.Some? && |files.value| == count
  {
    if files.None? || files.value == [] || |files.value| != count then 0
    else FirstIrregular(files.value, isRegularFile)
  }

  /** The packages after `setResponseFiles`: package k gets response file k for every k the
      assignment reached. */
  function WithResponseFiles(states: seq<PackageState>, files: Option<seq<string>>, isRegularFile: string -> bool)
    : (r: seq<PackageState>)
    ensures |r| == |states|
  {
    var n := Reassigned(files, |states|, isRegularFile);
    seq(|states|, k requires 0 <= k < |states| =>
      if k < n then states[k].(responseFile := ProvidedResponseFile(files.value[k])) else states[k])
  }

  /** No response files, or the wrong number of them, leave every default response file. */
  lemma ResponseFilesUntouched(states: seq<PackageState>, files: Option<seq<string>>, isRegularFile: string -> bool)
    requires files.None? || files.value == [] || |files.value| != |states|
    ensures WithResponseFiles(states, files, isRegularFile) == states
  {
  }

  /** When the check passes with files given, package k gets response file k and keeps
      everything else; when it stops at a file that is not regular, the packages before
      it have been reassigned and the rest keep theirs. */
  lemma ResponseFilesAssigned(states: seq<PackageState>, files: Option<seq<string>>, isRegularFile: string -> bool, k: nat)
    requires files.Some? && files.value != [] && |files.value| == |states| && k < |states|
    ensures ResponseFilesCheck(files, |states|, isRegularFile).Pass? ==>
      WithResponseFiles(states, files, isRegularFile)[k] == states[k].(responseFile := ProvidedResponseFile(files.value[k]))
    ensures ResponseFilesCheck(files, |states|, isRegularFile).Fail? ==>
      var bad := FirstIrregular(files.value, isRegularFile);
      && ResponseFilesCheck(files, |states|, isRegularFile) == Fail(FileNotFound(files.value[bad]))
      && WithResponseFiles(states, files, isRegularFile)[k] ==
         if k < bad then states[k].(responseFile := ProvidedResponseFile(files.value[k])) else states[k]
  {
  }

  // ---------------------------------------------------------------- the installer jar

  /** A zip entry is the installer when it names a jar or a bin. */
  predicate IsInstallerEntry(name: string) {
    EndsWith(name, ".jar") || EndsWith(name, ".bin")
  }

  /** The first installer entry of the archive, if any. */
  function FirstInstallerEntry(entries: seq<string>): (r: Option<nat>)
    ensures r.Some? ==> r.value < |entries| && IsInstallerEntry(entries[r.value])
                        && forall j :: 0 <= j < r.value ==> !IsInstallerEntry(entries[j])
    ensures r.None? ==> forall j :: 0 <= j < |entries| ==> !IsInstallerEntry(entries[j])
    decreases |entries|
  {
    if entries == [] then None
    else if IsInstallerEntry(entries[0]) then Some(0)
    else match FirstInstallerEntry(entries[1..])
         case None => None
         case Some(k) => Some(k + 1)
  }

  /** The entry names of the archive at a path, or `None` when it cannot be read. */
  type ZipReader = string -> Option<seq<string>>

  /** The name `getJarNameFromInstaller` (lines 73-94) answers for an installer file. */
  function JarName(installerFile: string, zipEntries: ZipReader): Result<string, Error>
  {
    match FileName(installerFile)
    case None => Failure(NullPointer)
    case Some(filename) =>
      if !EndsWith(filename, ".zip") then Success(filename)
      else
        match zipEntries(installerFile)
        case None => Failure(IoFailure(installerFile))
        case Some(entries) =>
          match FirstInstallerEntry(entries)
          case None => Success(filename)
          case Some(k) => Success(entries[k])
  }

  /** The lookup throws exactly for a path without a file name and for a zip that cannot be
      read; a file that is not a zip is its own installer. */
  lemma JarNameFails(installerFile: string, zipEntries: ZipReader)
    ensures JarName(installerFile, zipEntries).Failure? <==>
      FileName(installerFile).None?
      || (EndsWith(FileName(installerFile).value, ".zip") && zipEntries(installerFile).None?)
    ensures FileName(installerFile).Some? && !EndsWith(FileName(installerFile).value, ".zip") ==>
      JarName(installerFile, zipEntries) == Success(FileName(installerFile).value)
  {
  }

  /** For a readable zip the installer is the entry at the least index that names a jar or a
      bin, and the zip itself when no entry does. */
  lemma JarNameOfZip(installerFile: string, zipEntries: ZipReader, k: nat)
    requires FileName(installerFile).Some? && EndsWith(FileName(installerFile).value, ".zip")
    requires zipEntries(installerFile).Some?
    ensures var entries := zipEntries(installerFile).value;
      (forall j :: 0 <= j < |entries| ==> !IsInstallerEntry(entries[j])) ==>
        JarName(installerFile, zipEntries) == Success(FileName(installerFile).value)
    ensures var entries := zipEntries(installerFile).value;
      k < |entries| && IsInstallerEntry(entries[k]) && (forall j :: 0 <= j < k ==> !IsInstallerEntry(entries[j])) ==>
        JarName(installerFile, zipEntries) == Success(entries[k])
  {
    var entries := zipEntries(installerFile).value;
    match FirstInstallerEntry(entries)
    case None =>
    case Some(first) =>
      if k < |entries| && IsInstallerEntry(entries[k]) && (forall j :: 0 <= j < k ==> !IsInstallerEntry(entries[j])) {
        assert !(first < k) && !(k < first);
      }
  }

  // ---------------------------------------------------------------- staging

  /** The file operations staging performs: copying an installer into a directory under a
      name, reading an archive's entry names, writing a response file into a directory.
      Each answers whether it succeeded. */
  datatype StagingIo = StagingIo(
    copy: (string, string, string) -> bool,
    zipEntries: ZipReader,
    copyResponseFile: (ResponseFile, string) -> bool)

  /** A file operation staging has carried out. */
  datatype Action =
    | CopyInstaller(from: string, toDir: string, name: string)
    | CopyResponseFile(file: ResponseFile, toDir: string)

  /** The directory a package is staged into (lines 106-112). */
  function Destination(buildContextDir: string, platform: string, consts: BuildConstants): string {
    if platform == consts.amd64 then buildContextDir + "/" + consts.ctxFmw + consts.amd64
    else if platform == consts.arm64 then buildContextDir + "/" + consts.ctxFmw + consts.arm64
    else buildContextDir
  }

  /** The two platform subdirectories differ from each other and from the build context
      directory, which every other platform uses itself. */
  lemma DestinationsDistinct(buildContextDir: string, consts: BuildConstants, platform: string)
    requires consts.amd64 != consts.arm64
    ensures Destination(buildContextDir, consts.amd64, consts) != Destination(buildContextDir, consts.arm64, consts)
    ensures Destination(buildContextDir, consts.amd64, consts) != buildContextDir
    ensures Destination(buildContextDir, consts.arm64, consts) != buildContextDir
    ensures platform != consts.amd64 && platform != consts.arm64 ==>
      Destination(buildContextDir, platform, consts) == buildContextDir
  {
    var prefix := buildContextDir + "/" + consts.ctxFmw;
    assert Destination(buildContextDir, consts.amd64, consts) == prefix + consts.amd64;
    assert Destination(buildContextDir, consts.arm64, consts) == prefix + consts.arm64;
    assert (prefix + consts.amd64)[|prefix|..] == consts.amd64;
    assert (prefix + consts.arm64)[|prefix|..] == consts.arm64;
  }

  /** The result of staging one package. */
  datatype Staged = Staged(outcome: Outcome<Error>, state: PackageState, actions: seq<Action>)

  /** One iteration of `copyFiles` (lines 106-120). Once the installer is copied and its jar
      name found, the jar name and both flags are set even if the response file then fails. */
  function StageOne(s: PackageState, buildContextDir: string, consts: BuildConstants, io: StagingIo): Staged
  {
    var dest := Destination(buildContextDir, s.platform, consts);
    match FileName(s.installerPath)
    case None => Staged(Fail(NullPointer), s, [])
    case Some(name) =>
      if !io.copy(s.installerPath, dest, name) then Staged(Fail(IoFailure(s.installerPath)), s, [])
      else
        var copied := [CopyInstaller(s.installerPath, dest, name)];
        match JarName(s.installerPath, io.zipEntries)
        case Failure(e) => Staged(Fail(e), s, copied)
        case Success(jar) =>
          var t := s.(jarName := Some(jar), isZip := EndsWith(s.installerFilename, ".zip"),
                      isBin := EndsWith(jar, ".bin"));
          if !io.copyResponseFile(s.responseFile, dest) then Staged(Fail(IoFailure(dest)), t, copied)
          else Staged(Pass, t, copied + [CopyResponseFile(s.responseFile, dest)])
  }

  /** Staging one package changes at most its jar name and flags; once it has changed them,
      or when it passes, the jar name is the one `getJarNameFromInstaller` answers and the
      flags say whether the installer is a zip and the jar a bin; a pass has copied the
      installer and then its response file into the package's directory. */
  lemma StageOneEffects(s: PackageState, buildContextDir: string, consts: BuildConstants, io: StagingIo)
    ensures var r := StageOne(s, buildContextDir, consts, io);
      && (r.state == s || r.state == s.(jarName := r.state.jarName, isZip := r.state.isZip, isBin := r.state.isBin))
      && (r.state != s || r.outcome.Pass? ==>
            && r.state.jarName.Some? && JarName(s.installerPath, io.zipEntries) == Success(r.state.jarName.value)
            && (r.state.isZip <==> EndsWith(s.installerFilename, ".zip"))
            && (r.state.isBin <==> EndsWith(r.state.jarName.value, ".bin")))
      && (r.outcome.Pass? ==>
            var dest := Destination(buildContextDir, s.platform, consts);
            r.actions == [CopyInstaller(s.installerPath, dest, FileName(s.installerPath).value),
                          CopyResponseFile(s.responseFile, dest)])
  {
    var r := StageOne(s, buildContextDir, consts, io);
    var dest := Destination(buildContextDir, s.platform, consts);
    match FileName(s.installerPath)
    case None =>
      assert r == Staged(Fail(NullPointer), s, []);
    case Some(name) =>
      if !io.copy(s.installerPath, dest, name) {
        assert r == Staged(Fail(IoFailure(s.installerPath)), s, []);
      } else {
        var copied := [CopyInstaller(s.installerPath, dest, name)];
        match JarName(s.installerPath, io.zipEntries)
        case Failure(e) =>
          assert r == Staged(Fail(e), s, copied);
        case Success(jar) =>
          var t := s.(jarName := Some(jar), isZip := EndsWith(s.installerFilename, ".zip"),
                      isBin := EndsWith(jar, ".bin"));
          assert r.state == t;
          assert r.outcome.Pass? ==> r.actions == copied + [CopyResponseFile(s.responseFile, dest)];
      }
  }

  /** Staging one package, with the build context directory, constants and file operations fixed. */
  type Stager = PackageState -> Staged

  function Stage(buildContextDir: string, consts: BuildConstants, io: StagingIo): Stager {
    s => StageOne(s, buildContextDir, consts, io)
  }

  /** Staging a sequence of packages so far. */
  datatype Progress = Progress(outcome: Outcome<Error>, states: seq<PackageState>, actions: seq<Action>)

  /** `copyFiles` over the packages in order; after the first failure the rest are untouched. */
  function StageAll(states: seq<PackageState>, stage: Stager): (p: Progress)
    ensures |p.states| == |states|
    decreases |states|
  {
    if states == [] then Progress(Pass, [], [])
    else
      var prev := StageAll(states[..|states| - 1], stage);
      var last := states[|states| - 1];
      if prev.outcome.Fail? then Progress(prev.outcome, prev.states + [last], prev.actions)
      else
        var one := stage(last);
        Progress(one.outcome, prev.states + [one.state], prev.actions + one.actions)
  }

  /** Staging more packages after a failure changes nothing. */
  lemma {:induction false} StageAllAfterFailure(xs: seq<PackageState>, ys: seq<PackageState>, stage: Stager)
    requires StageAll(xs, stage).outcome.Fail?
    ensures StageAll(xs + ys, stage) ==
      var p := StageAll(xs, stage);
      Progress(p.outcome, p.states + ys, p.actions)
    decreases |ys|
  {
    if ys == [] {
      assert xs + ys == xs;
    } else {
      var init := ys[..|ys| - 1];
      var last := ys[|ys| - 1];
      assert (xs + ys)[..|xs + ys| - 1] == xs + init;
      StageAllAfterFailure(xs, init, stage);
      StageAllFailedStep(xs + ys, stage);
      assert init + [last] == ys;
      var p := StageAll(xs, stage);
      assert p.states + init + [last] == p.states + ys;
    }
  }

  /** A staging whose prefix has failed only appends the last package unchanged. */
  lemma StageAllFailedStep(states: seq<PackageState>, stage: Stager)
    requires states != [] && StageAll(states[..|states| - 1], stage).outcome.Fail?
    ensures var prev := StageAll(states[..|states| - 1], stage);
      StageAll(states, stage) == Progress(prev.outcome, prev.states + [states[|states| - 1]], prev.actions)
  {
  }

  /** A staging that succeeds stages every package, in order, each as `stage` does. */
  lemma {:induction false} StageAllPass(states: seq<PackageState>, stage: Stager, k: nat)
    requires StageAll(states, stage).outcome.Pass? && k < |states|
    ensures stage(states[k]).outcome.Pass?
    ensures StageAll(states, stage).states[k] == stage(states[k]).state
    decreases |states|
  {
    var init := states[..|states| - 1];
    if k < |init| {
      StageAllPass(init, stage, k);
      assert init[k] == states[k];
    }
  }

  /** Package k is the first whose staging fails. */
  ghost predicate StopsAt(states: seq<PackageState>, stage: Stager, k: int)
  {
    && 0 <= k < |states|
    && StageAll(states[..k], stage).outcome.Pass?
    && stage(states[k]).outcome.Fail?
  }

  /** Once package k fails, the staging fails with its error and the packages after it are
      untouched. */
  lemma StageAllStopped(states: seq<PackageState>, stage: Stager, k: nat)
    requires StopsAt(states, stage, k)
    ensures var prev := StageAll(states[..k], stage);
            var one := stage(states[k]);
            StageAll(states, stage) ==
              Progress(one.outcome, prev.states + [one.state] + states[k + 1..], prev.actions + one.actions)
  {
    var upTo := states[..k + 1];
    assert upTo[..k] == states[..k];
    StageAllAfterFailure(upTo, states[k + 1..], stage);
    assert upTo + states[k + 1..] == states;
  }

  /** A staging that fails has stopped at some package. */
  lemma {:induction false} StageAllStops(states: seq<PackageState>, stage: Stager)
    requires StageAll(states, stage).outcome.Fail?
    ensures exists k :: StopsAt(states, stage, k)
    decreases |states|
  {
    var init := states[..|states| - 1];
    if StageAll(init, stage).outcome.Pass? {
      assert StopsAt(states, stage, |states| - 1);
    } else {
      StageAllStops(init, stage);
      var k :| StopsAt(init, stage, k);
      assert init[k] == states[k] && init[..k] == states[..k];
      assert StopsAt(states, stage, k);
    }
  }
}
