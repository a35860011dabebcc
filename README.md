# WebLogic Image Tool: installer catalog, install plan and cache listing

This project models the core of the WebLogic Image Tool that deals with cached installers and
patches. It covers five pieces:

- **`UserSettingsFile`** (modules `UserSettings` and `UserSettingsObject`).
  - It decodes the loaded installer file into a catalog: installer type, then version key,
    then a list of `InstallerMetaData`.
  - It decodes the loaded patch file into a catalog: bug number, then a list of `PatchMetaData`.
  - It looks up the installer or patch for a platform.
  - It builds the tree that `saveAllPatches` writes.
  - It applies a loaded settings map to the settings object.
- **`MiddlewareInstall`** (modules `MiddlewarePlan` and `Middleware`).
  - Its constructor plans one package per installer of the stack and per build platform.
  - `setResponseFiles` assigns caller response files by position.
  - `getJarNameFromInstaller` finds the installer inside a zip.
  - `copyFiles` stages every package into its build-context directory.
  - The packages are objects whose fields the methods update in place. They are held in a
    `seq` field of a `MiddlewareInstall` object.
- **`listInstallers`** (module `CacheListing`): the cache command that prints the catalog,
  filtered by `--type` and by `--commonName`/`--version`.
- **`InstallerMetaData`** (module `Metadata`): the immutable record and its `toString` text.
- **`PatchVersionException`** (module `PatchVersion`): its `bugNumber_version, …` listing.

Supporting modules:

- `Wrappers`: `Option`, `Result`, `Outcome` and the Java exceptions as `Error`.
- `Text`: Java `null` strings as `JString`, `toUpperCase`, `equalsIgnoreCase`, `endsWith`,
  `Path.getFileName`, and join and split.
- `Yaml`: the loaded YAML tree as a `Value`. A map is a sequence of bindings in its iteration
  order.
  - A loaded map has distinct keys, as a YAML loader builds it, but the model does not demand
    it.
  - On a map that repeats a key, `Get` sees the first binding. `Get` is the typed reads of
    `getValue`, `getFolder` and the record fields.
  - The decoding loops put every binding, so they keep the last one.
- `Folds`: the three loops every decoder shares.
  - `MapAll` maps every element and fails at the first failure.
  - `Collect` maps every element and keeps the results that are present.
  - `PutAll` is a run of `HashMap.put`, so the last binding of a key wins.

Every loop of the source is a `method` with a loop, with two exceptions. The
platform scans of `getInstallerForPlatform` and `getPatchForPlatform` are the recursive
functions `FirstPlatform` and `FirstGeneric`, which the lookup functions call. Each loop is
proved equal to one of two things:

- a function of its inputs;
- for state changes, a function of the old state.

The functions' own properties are lemmas.

The code is followed where it differs from its description:

- `getInstallerForPlatform` and `getPatchForPlatform` call `getPlatform().equals(…)`. A
  record with a `null` platform that the scan reaches before a match therefore throws:
  `FirstPlatform` fails with `NullPointer`. The lookups are total only over non-null
  platforms.
  - A null requested platform never matches.
  - A null version or bug number finds the catalog's null key.
- Decoding fails on a wrong-shaped value even under a top-level key that names no installer
  type. The value is cast before `InstallerType.valueOf` runs, and only
  `IllegalArgumentException` is caught.
- `setResponseFiles` compares the number of response files with the number of packages, line
  140. That is one per installer and build platform, not one per installer of the stack.
  Response file k goes to package k in installer-major order.

## Model

| member | source | states |
|---|---|---|
| UserSettings.CreateInstallerMetaData | imagetool/src/main/java/com/oracle/weblogic/imagetool/settings/UserSettingsFile.java:250-257 | a record decodes exactly when each of digest, added, file, version and platform is a string or absent; otherwise the cast throws ClassCastException |
| UserSettings.InstallerRecordRoundTrip | imagetool/src/main/java/com/oracle/weblogic/imagetool/settings/UserSettingsFile.java:250-257 | a record written under digest→hash, added→dateAdded, file→location, version→productVersion, platform→platform decodes back to itself, whatever other keys follow |
| UserSettings.DecodeInstallerRecord | imagetool/src/main/java/com/oracle/weblogic/imagetool/settings/UserSettingsFile.java:318-325 | a map is read as a record, a null record throws NullPointerException, any other value throws ClassCastException |
| UserSettings.DecodeInstallerList | imagetool/src/main/java/com/oracle/weblogic/imagetool/settings/UserSettingsFile.java:316-325 | a list yields one record per item in list order and succeeds iff every item decodes; any other value is one record promoted to a one-element list; failures are NullPointer or ClassCast |
| UserSettings.DecodeVersions | imagetool/src/main/java/com/oracle/weblogic/imagetool/settings/UserSettingsFile.java:312-327 | the versions of a type decode iff the value is a map and every version's value decodes |
| UserSettings.DecodedVersionsContent | imagetool/src/main/java/com/oracle/weblogic/imagetool/settings/UserSettingsFile.java:314-327 | the decoded version keys are exactly the keys of the map, and each holds the list decoded from its last binding |
| UserSettings.TypeEntryYields | imagetool/src/main/java/com/oracle/weblogic/imagetool/settings/UserSettingsFile.java:300-329 | a top-level entry contributes type t iff its key is non-null, non-empty and upper-cases to t's name |
| UserSettings.InstallersLoadIff | imagetool/src/main/java/com/oracle/weblogic/imagetool/settings/UserSettingsFile.java:299-336 | the load succeeds iff every entry with a non-null, non-empty key decodes, whether or not the key names a type |
| UserSettings.InstallersLoadedTypes | imagetool/src/main/java/com/oracle/weblogic/imagetool/settings/UserSettingsFile.java:299-336 | type t is in the catalog iff some key upper-cases to its name; unknown, null and empty keys add nothing; t holds the versions of its last such key |
| UserSettings.ReadInstallerList | imagetool/src/main/java/com/oracle/weblogic/imagetool/settings/UserSettingsFile.java:316-325 | the loop over one version's records computes DecodeInstallerList |
| UserSettings.ReadVersions | imagetool/src/main/java/com/oracle/weblogic/imagetool/settings/UserSettingsFile.java:312-327 | the loop over one type's versions computes DecodeVersions |
| UserSettings.GetInstallers | imagetool/src/main/java/com/oracle/weblogic/imagetool/settings/UserSettingsFile.java:296-337 | the nested loops over the loaded installer file compute the catalog DecodeInstallers defines, or its first exception |
| UserSettings.FirstPlatform | imagetool/src/main/java/com/oracle/weblogic/imagetool/settings/UserSettingsFile.java:354-358 | the scan finds the first entry whose platform equals the requested one; it misses iff every platform is non-null and different; it throws iff it reaches a null platform first |
| UserSettings.GetInstallerForPlatform | imagetool/src/main/java/com/oracle/weblogic/imagetool/settings/UserSettingsFile.java:350-362 | the result is the first record of the (type, version) list whose platform matches, so later duplicates are never returned; null iff no platform matches; an exception iff a null platform is reached first. A null requested platform never matches, and a null version finds a null key |
| UserSettings.InstallerLookupAbsent | imagetool/src/main/java/com/oracle/weblogic/imagetool/settings/UserSettingsFile.java:350-361 | an absent type or version is a miss, never an exception |
| UserSettings.FirstGeneric | imagetool/src/main/java/com/oracle/weblogic/imagetool/settings/UserSettingsFile.java:384-388 | the null-safe scan finds the first "generic" platform, or none iff there is none |
| UserSettings.GetPatchForPlatform | imagetool/src/main/java/com/oracle/weblogic/imagetool/settings/UserSettingsFile.java:372-394 | an exact platform match is returned first; when no platform matches, a record is returned only for the default OPatch bug number, and it is the first "generic" entry; any record returned is in the bug number's list; null iff neither applies; an exception iff a null platform is reached first |
| UserSettings.GenericPatchFallback | imagetool/src/main/java/com/oracle/weblogic/imagetool/settings/UserSettingsFile.java:383-389 | for the default OPatch bug number a lone "generic" record serves any other platform |
| UserSettings.CreatePatchMetaData | imagetool/src/main/java/com/oracle/weblogic/imagetool/settings/UserSettingsFile.java:259-266 | a patch record decodes iff hash, location, patchVersion and platform are strings or absent; its dateAdded is always today's date; otherwise ClassCastException |
| UserSettings.DecodePatchRecord | imagetool/src/main/java/com/oracle/weblogic/imagetool/settings/UserSettingsFile.java:407-412 | a map is read as a patch record, null throws NullPointerException, any other value ClassCastException |
| UserSettings.DecodePatchList | imagetool/src/main/java/com/oracle/weblogic/imagetool/settings/UserSettingsFile.java:407-413 | a list yields one patch per item in list order, succeeding iff every item decodes; a single value becomes a one-element list |
| UserSettings.ReadPatchList | imagetool/src/main/java/com/oracle/weblogic/imagetool/settings/UserSettingsFile.java:407-413 | the loop over one bug number's records computes DecodePatchList |
| UserSettings.PatchesLoadIff | imagetool/src/main/java/com/oracle/weblogic/imagetool/settings/UserSettingsFile.java:403-416 | the patch load succeeds iff the value of every entry with a non-null key decodes, the empty key included; the value under a null key is never read |
| UserSettings.PatchesLoadedKeys | imagetool/src/main/java/com/oracle/weblogic/imagetool/settings/UserSettingsFile.java:403-416 | the loaded bug numbers are exactly those of the file, null and empty included |
| UserSettings.PatchesLoadedValue | imagetool/src/main/java/com/oracle/weblogic/imagetool/settings/UserSettingsFile.java:404-415 | the last binding of a bug number decides what it holds: the empty list for a null bug number, the records decoded from that binding for every other |
| UserSettings.GetAllPatches | imagetool/src/main/java/com/oracle/weblogic/imagetool/settings/UserSettingsFile.java:400-418 | the loop over the loaded patch file computes DecodePatches, the catalog PatchesLoadIff, PatchesLoadedKeys and PatchesLoadedValue describe, or its first exception |
| UserSettings.SavedList | imagetool/src/main/java/com/oracle/weblogic/imagetool/settings/UserSettingsFile.java:429-447 | an ArrayList is written as one map per record, in list order, each with patchVersion, location, hash, dateAdded and platform; a null element throws NullPointerException. Any other value fails: a non-ArrayList List throws ClassCastException at the cast, and null throws NullPointerException at the first getter |
| UserSettings.SavePatchList | imagetool/src/main/java/com/oracle/weblogic/imagetool/settings/UserSettingsFile.java:429-447 | the loop over one bug number's records computes SavedList |
| UserSettings.SaveAllPatches | imagetool/src/main/java/com/oracle/weblogic/imagetool/settings/UserSettingsFile.java:423-451 | in any key order: succeeds iff every non-null, non-empty bug number's value can be written, and then builds exactly those bug numbers with their written records; otherwise throws the exception of one such bug number |
| UserSettings.CatalogSaves | imagetool/src/main/java/com/oracle/weblogic/imagetool/settings/UserSettingsFile.java:423-451 | a catalog whose values are ArrayLists of records, as getAllPatches builds them, saves without an exception, to the tree the reload lemmas read |
| UserSettings.PatchRecordReload | imagetool/src/main/java/com/oracle/weblogic/imagetool/settings/UserSettingsFile.java:429-437 | a written patch record reads back with the same patchVersion, location, hash and platform, and today's date |
| UserSettings.PatchListReload | imagetool/src/main/java/com/oracle/weblogic/imagetool/settings/UserSettingsFile.java:428-438 | a written list of patches reads back as the same list in the same order, each dated today |
| UserSettings.ReloadedKey | imagetool/src/main/java/com/oracle/weblogic/imagetool/settings/UserSettingsFile.java:425-450 | reloading a saved tree yields exactly the saved non-null, non-empty bug numbers |
| UserSettings.ReloadedValue | imagetool/src/main/java/com/oracle/weblogic/imagetool/settings/UserSettingsFile.java:425-450 | each reloaded bug number holds its saved records, dated today |
| UserSettings.SavedPatchesReload | imagetool/src/main/java/com/oracle/weblogic/imagetool/settings/UserSettingsFile.java:423-452 | any load of what saveAllPatches writes succeeds and gives back the catalog without null or empty keys, every record dated today |
| UserSettingsObject.StringSetting | imagetool/src/main/java/com/oracle/weblogic/imagetool/settings/UserSettingsFile.java:462-466 | a string setting is present iff the key holds a string, and then is that binding's string |
| UserSettingsObject.IntSetting | imagetool/src/main/java/com/oracle/weblogic/imagetool/settings/UserSettingsFile.java:468-469 | an integer setting is present iff the key holds an integer, and then is that binding's integer |
| UserSettingsObject.InstallerFolder | imagetool/src/main/java/com/oracle/weblogic/imagetool/settings/UserSettingsFile.java:474 | a non-empty installers folder is the map bound to "installers" |
| UserSettingsObject.AsMap | imagetool/src/main/java/com/oracle/weblogic/imagetool/settings/UserSettingsFile.java:482 | the cast to a map succeeds iff the value is a map or null, and otherwise throws ClassCastException |
| UserSettingsObject.SettingsEntryYields | imagetool/src/main/java/com/oracle/weblogic/imagetool/settings/UserSettingsFile.java:476-486 | an installers entry sets type t iff its key is non-null, non-empty and upper-cases to t's name |
| UserSettingsObject.InstallerSettingsLoadIff | imagetool/src/main/java/com/oracle/weblogic/imagetool/settings/UserSettingsFile.java:475-488 | installer settings load iff every entry with a recognised type key holds a map or null; unknown keys are skipped without a cast |
| UserSettingsObject.InstallerSettingsLoadedTypes | imagetool/src/main/java/com/oracle/weblogic/imagetool/settings/UserSettingsFile.java:475-488 | a recognised type holds the settings of its last entry |
| UserSettingsObject.InstallerSettingsAbsent | imagetool/src/main/java/com/oracle/weblogic/imagetool/settings/UserSettingsFile.java:475-488 | a type without an entry has no settings after the refill |
| UserSettingsObject.ReadInstallerSettings | imagetool/src/main/java/com/oracle/weblogic/imagetool/settings/UserSettingsFile.java:475-488 | the loop computes LoadInstallerSettings, or stops at the first failing cast with the types loaded before it |
| UserSettingsObject.UserSettingsFile.Init | imagetool/src/main/java/com/oracle/weblogic/imagetool/settings/UserSettingsFile.java:93-94 | a new settings object has every setting null and no installer settings |
| UserSettingsObject.UserSettingsFile.ApplySettings | imagetool/src/main/java/com/oracle/weblogic/imagetool/settings/UserSettingsFile.java:455-491 | null or empty settings change nothing; otherwise all nine plain settings are re-read from their keys and the installer settings are cleared and refilled from the installers folder |
| Metadata.ValueOf | imagetool/src/main/java/com/oracle/weblogic/imagetool/settings/UserSettingsFile.java:329 | valueOf answers the type whose name is the string, and no type when no name is |
| Metadata.ValueOfName | imagetool/src/main/java/com/oracle/weblogic/imagetool/settings/UserSettingsFile.java:329 | valueOf of a type's name is that type |
| Metadata.ToStringIsJoin | imagetool/src/main/java/com/oracle/weblogic/imagetool/installer/InstallerMetaData.java:48-51 | toString is its five labelled fields, platform, location, hash, dateAdded and version, in that order, separated by commas |
| Metadata.ToStringParses | imagetool/src/main/java/com/oracle/weblogic/imagetool/installer/InstallerMetaData.java:48-51 | when no field contains a comma, the text reads back as the five fields in that order |
| Middleware.GetJarNameFromInstaller | imagetool/src/main/java/com/oracle/weblogic/imagetool/installer/MiddlewareInstall.java:73-94 | the loop with its break computes JarName |
| MiddlewarePlan.FirstInstallerEntry | imagetool/src/main/java/com/oracle/weblogic/imagetool/installer/MiddlewareInstall.java:80-89 | the first entry ending in .jar or .bin, or none iff no entry does |
| MiddlewarePlan.JarNameFails | imagetool/src/main/java/com/oracle/weblogic/imagetool/installer/MiddlewareInstall.java:73-94 | the lookup throws iff the path has no file name or is a zip that cannot be read; a file that is not a zip is its own installer name |
| MiddlewarePlan.JarNameOfZip | imagetool/src/main/java/com/oracle/weblogic/imagetool/installer/MiddlewareInstall.java:76-89 | for a readable zip the answer is the entry at the least index that ends in .jar or .bin, or the zip's own name when no entry does |
| MiddlewarePlan.PackageFor | imagetool/src/main/java/com/oracle/weblogic/imagetool/installer/MiddlewareInstall.java:49-65 | an exception of the lookup propagates; otherwise a package is planned iff the lookup has an entry with a location that has a file name, else NullPointerException; it carries its type and platform, the cached architecture of a build platform (ARM64 when both build constants equal the platform), the location as path, its last component as filename, the default response file, and a pre-install command iff DB19 |
| MiddlewarePlan.PairsLength | imagetool/src/main/java/com/oracle/weblogic/imagetool/installer/MiddlewareInstall.java:47-48 | the nested loops visit \|installers\| × \|platforms\| pairs |
| MiddlewarePlan.PairAt | imagetool/src/main/java/com/oracle/weblogic/imagetool/installer/MiddlewareInstall.java:47-48 | installer i with platform j is visited at position i × \|platforms\| + j, installer-major |
| MiddlewarePlan.PlanShape | imagetool/src/main/java/com/oracle/weblogic/imagetool/installer/MiddlewareInstall.java:47-68 | a successful plan has \|installers\| × \|platforms\| packages; package i × \|platforms\| + j has installer i, platform j, its cached architecture, the resolved location and its file name, the default response file, and the DB19 command on DB19 alone |
| MiddlewarePlan.PlanFailure | imagetool/src/main/java/com/oracle/weblogic/imagetool/installer/MiddlewareInstall.java:47-60 | a failed plan throws the exception of some installer and platform that cannot be planned: the lookup's own exception there, or NullPointerException |
| MiddlewarePlan.PlanFailsAt | imagetool/src/main/java/com/oracle/weblogic/imagetool/installer/MiddlewareInstall.java:58-60 | one installer and platform that cannot be planned fails the whole plan |
| MiddlewarePlan.FirstIrregular | imagetool/src/main/java/com/oracle/weblogic/imagetool/installer/MiddlewareInstall.java:148-153 | the index of the first path that is not a regular file, every path before it being one |
| MiddlewarePlan.ResponseFilesCheck | imagetool/src/main/java/com/oracle/weblogic/imagetool/installer/MiddlewareInstall.java:133-157 | passes iff the list is null, empty, or as long as the packages with every path a regular file; a wrong length throws IllegalArgumentException with both counts; otherwise FileNotFoundException names the first irregular path |
| MiddlewarePlan.Reassigned | imagetool/src/main/java/com/oracle/weblogic/imagetool/installer/MiddlewareInstall.java:140-156 | packages are reassigned only when the lengths match |
| MiddlewarePlan.ResponseFilesUntouched | imagetool/src/main/java/com/oracle/weblogic/imagetool/installer/MiddlewareInstall.java:134-146 | a null or empty list, or one of the wrong length, leaves every package unchanged |
| MiddlewarePlan.ResponseFilesAssigned | imagetool/src/main/java/com/oracle/weblogic/imagetool/installer/MiddlewareInstall.java:148-156 | file k goes to package k, which keeps everything else; after a FileNotFoundException the packages before the bad file are already reassigned and the rest are not |
| MiddlewarePlan.DestinationsDistinct | imagetool/src/main/java/com/oracle/weblogic/imagetool/installer/MiddlewareInstall.java:106-112 | the amd64 and arm64 subdirectories differ from each other and from the build context directory, which every other platform uses |
| MiddlewarePlan.StageOneEffects | imagetool/src/main/java/com/oracle/weblogic/imagetool/installer/MiddlewareInstall.java:105-120 | staging changes only jarName, isZip and isBin; once set, jarName is getJarNameFromInstaller's answer, isZip iff the filename ends in .zip, isBin iff the jar name ends in .bin; a pass has copied the installer, then its response file, into the platform's directory |
| MiddlewarePlan.StageAllAfterFailure | imagetool/src/main/java/com/oracle/weblogic/imagetool/installer/MiddlewareInstall.java:105-121 | after an exception later packages are untouched and nothing more is copied |
| MiddlewarePlan.StageAllPass | imagetool/src/main/java/com/oracle/weblogic/imagetool/installer/MiddlewareInstall.java:105-121 | a copyFiles that passes has staged every package, in order |
| MiddlewarePlan.StageAllStopped | imagetool/src/main/java/com/oracle/weblogic/imagetool/installer/MiddlewareInstall.java:105-121 | the first package to fail ends copyFiles with its exception, with the packages after it untouched |
| MiddlewarePlan.StageAllStops | imagetool/src/main/java/com/oracle/weblogic/imagetool/installer/MiddlewareInstall.java:105-121 | a copyFiles that fails has stopped at a first failing package |
| Middleware.StagedNamed | imagetool/src/main/java/com/oracle/weblogic/imagetool/installer/MiddlewareInstall.java:105-120 | staging keeps every package's path and file name, so packages named after their paths stay so |
| Middleware.PlanNamed | imagetool/src/main/java/com/oracle/weblogic/imagetool/installer/MiddlewareInstall.java:59-60 | every planned package's filename is the last component of its installer path |
| Middleware.ResponseFilesNamed | imagetool/src/main/java/com/oracle/weblogic/imagetool/installer/MiddlewareInstall.java:148-156 | assigning response files keeps every package's path and filename |
| Middleware.MiddlewareInstall.Create | imagetool/src/main/java/com/oracle/weblogic/imagetool/installer/MiddlewareInstall.java:41-71 | the constructor throws the plan's exception, or the response-file check's; otherwise it builds a fresh object of fresh, distinct packages whose states are the plan with the response files assigned |
| Middleware.MiddlewareInstall.PlanPackages | imagetool/src/main/java/com/oracle/weblogic/imagetool/installer/MiddlewareInstall.java:47-68 | the nested loops append fresh, distinct packages whose states are the plan, in order, or throw its exception |
| Middleware.MiddlewareInstall.PlanRow | imagetool/src/main/java/com/oracle/weblogic/imagetool/installer/MiddlewareInstall.java:48-67 | the inner loop builds one fresh package per platform for one installer type, in order, or throws the first exception |
| Middleware.MiddlewareInstall.SetResponseFiles | imagetool/src/main/java/com/oracle/weblogic/imagetool/installer/MiddlewareInstall.java:133-157 | answers ResponseFilesCheck, and leaves the packages as WithResponseFiles says, modifying nothing else; every package stays distinct and named after its path (Valid) |
| Middleware.MiddlewareInstall.AssignResponseFiles | imagetool/src/main/java/com/oracle/weblogic/imagetool/installer/MiddlewareInstall.java:148-156 | the loop stops at the first irregular file; each package before it gets its provided response file and the rest keep their state |
| Middleware.MiddlewareInstall.CopyFiles | imagetool/src/main/java/com/oracle/weblogic/imagetool/installer/MiddlewareInstall.java:102-123 | the outcome, the new package states and the file operations are those StageAll gives for the old states; every package stays distinct and named after its path (Valid) |
| Middleware.MiddlewareInstall.StageEach | imagetool/src/main/java/com/oracle/weblogic/imagetool/installer/MiddlewareInstall.java:105-121 | the loop stages the packages up to the first failure as StageAll does, leaving the rest untouched |
| Middleware.StagePackage | imagetool/src/main/java/com/oracle/weblogic/imagetool/installer/MiddlewareInstall.java:106-120 | one loop body updates the package and performs the file operations as StageOne says |
| CacheListing.Listing | imagetool/src/main/java/com/oracle/weblogic/imagetool/cli/cache/ListInstallers.java:25-65 | the command exits iff a non-empty commonName or version is given without --type, with status 2 and one line; otherwise it succeeds |
| CacheListing.ExitMessages | imagetool/src/main/java/com/oracle/weblogic/imagetool/cli/cache/ListInstallers.java:28-39 | the exit prints the message of the option checked first, commonName before version; a success prints the catalog lines |
| CacheListing.ListInstallers | imagetool/src/main/java/com/oracle/weblogic/imagetool/cli/cache/ListInstallers.java:25-65 | the loops with their continue and return filters print exactly Listing |
| CacheListing.ListVersions | imagetool/src/main/java/com/oracle/weblogic/imagetool/cli/cache/ListInstallers.java:45-61 | the forEach over a type's versions prints exactly VersionsLines |
| CacheListing.ListRecords | imagetool/src/main/java/com/oracle/weblogic/imagetool/cli/cache/ListInstallers.java:54-60 | the loop over a version's records prints exactly RecordsLines |
| CacheListing.OtherTypesSilent | imagetool/src/main/java/com/oracle/weblogic/imagetool/cli/cache/ListInstallers.java:40-43 | types other than --type print nothing |
| CacheListing.TypeFilter | imagetool/src/main/java/com/oracle/weblogic/imagetool/cli/cache/ListInstallers.java:40-44 | with --type t the listing is exactly t's section, or nothing when the catalog has no t |
| CacheListing.SectionListed | imagetool/src/main/java/com/oracle/weblogic/imagetool/cli/cache/ListInstallers.java:40-62 | without --type every type of the catalog has its whole section, contiguous, in the listing |
| CacheListing.VersionListed | imagetool/src/main/java/com/oracle/weblogic/imagetool/cli/cache/ListInstallers.java:45-61 | every version key of a type has its lines (heading and records when shown, nothing when filtered out) as one contiguous run of the type's listing |
| CacheListing.HeadingAlone | imagetool/src/main/java/com/oracle/weblogic/imagetool/cli/cache/ListInstallers.java:44-52 | a type whose version keys are all filtered out still prints its heading, alone |
| CacheListing.ConflictingFilters | imagetool/src/main/java/com/oracle/weblogic/imagetool/cli/cache/ListInstallers.java:46-52 | a commonName and a version that differ ignoring case let no key through, since both compare the same key |
| CacheListing.RecordsLayout | imagetool/src/main/java/com/oracle/weblogic/imagetool/cli/cache/ListInstallers.java:54-60 | records print five lines each, in list order: location, platform, digest, dateAdded, version |
| CacheListing.VersionLayout | imagetool/src/main/java/com/oracle/weblogic/imagetool/cli/cache/ListInstallers.java:53-60 | a shown version key prints its heading and then each of its records |
| PatchVersion.ListingOfFew | imagetool/src/main/java/com/oracle/weblogic/imagetool/aru/PatchVersionException.java:22-24 | no available patch gives the empty listing, one gives its item alone |
| PatchVersion.ListingAppend | imagetool/src/main/java/com/oracle/weblogic/imagetool/aru/PatchVersionException.java:22-24 | one more patch appends ", " and its item at the end |
| PatchVersion.ListingLength | imagetool/src/main/java/com/oracle/weblogic/imagetool/aru/PatchVersionException.java:22-24 | n items have n − 1 separators of two characters each |
| PatchVersion.ListingParses | imagetool/src/main/java/com/oracle/weblogic/imagetool/aru/PatchVersionException.java:22-24 | when no bug number or version holds a comma, the listing reads back as one item bugNumber_version per available patch, duplicates included, in list order |

## Left out

- File and YAML I/O is not modelled: `SettingsFile.load`, `save`, `asYaml` and the settings
  file path under `user.home`.
  - The loaded tree is a parameter.
  - `saveAllPatches` returns the tree it hands to the writer.
  - `getInstallers()` and `getAllPatches()` read their files inside the lookups; here the
    lookups take the decoded catalog instead.
- `SettingsFile.getValue` and `getFolder` are not part of this model.
  - `getValue` is a typed lookup of the first binding of a key. A wrong-typed or absent value
    reads as null.
  - `getFolder` reads an absent or non-map folder as an empty map, so the loop at line 475
    visits nothing.
- `InstallerSettings` is not part of this model. Its construction from a map is the opaque
  `InstallerSettings(map)` value.
- The integer width of `aruRetryMax`/`aruRetryInterval` is not modelled. Integers are
  unbounded.
- UserSettingsObject.UserSettingsFile.ApplySettings: the Java constructor's call of
  `applySettings` on a freshly made object is `Init` followed by `ApplySettings`.
  - The refill is assigned from a local map once the loop ends. The Java code puts into the
    cleared EnumMap directly, which leaves the same contents.
- The `save()` and `toString()` of the settings object are not modelled because they are
  YAML output. Neither are the directory and engine getters and setters, `getInstallerSettings`,
  or the `getInstaller` stub, which always answers null.
- Keys of loaded maps are strings or null. A YAML loader can read an unquoted version or bug
  number as an Integer. The source then throws ClassCastException at the `String` key casts
  (UserSettingsFile.java lines 300, 315, 404 and 476), and that aborts `getInstallers`,
  `getAllPatches` or `applySettings`. This error path is not modelled.
- UserSettings.GetInstallerForPlatform: the installer type is never null. In the source a null
  type is a miss (`EnumMap.get(null)` at line 350), and every caller shown passes a type.
- `InstallerType` and `FmwInstallerType` are not part of this model.
  - `InstallerType` is a representative set of constants, with `name()` as their names.
  - Its `toString`, used in listing headings, is the `typeText` parameter.
  - An `FmwInstallerType` is a name and its installer list.
- `toUpperCase` and `equalsIgnoreCase` fold ASCII letters only.
- `Paths.get` is modelled only through the last component of a '/'-separated path. An
  invalid path and path normalisation are not modelled, and a path stays a plain string.
- The `ConfigManager` singleton and `Architecture.fromString` are the `resolve` parameter. It
  answers one of three things for (type, platform, version):
  - the configured installer;
  - null;
  - the exception the lookup throws. For example, `getInstallerForPlatform` reloads the
    installer file, and that can throw.
- `CachedFile` is only the architecture recorded for the two build platforms.
- The constants `AMD64_BLD`, `ARM64_BLD`, `CTX_FMW` and `OPatchFile.DEFAULT_BUG_NUM` are
  parameters, because their values are not part of this model.
- Files and archives are oracles passed in, and staging records the operations it performs:
  - `Files.isRegularFile`, `Files.copy` and the zip entry listing;
  - `ResponseFile.copyFile`;
  - the response-file templates.
- `Utils.getMessage` resource-bundle texts are not modelled:
  - IMG-0034 for `PatchVersionException`: the model keeps only the listing argument;
  - IMG-0040: the exception carries the two counts but not `installerListString()`.
  - IMG-0042: the exception carries the path.
- `AruPatch` is represented by its version strings.
- Logging is not modelled because it has no effect on results.
- `getTodayDate` is the `today` parameter.
- Middleware.MiddlewareInstall.Create: the Java constructor fills a half-built object.
  - The model plans the packages first, then builds the object and assigns response files.
  - The packages and their states are the same.
  - A null response-file path inside the list is not modelled.
- The build platforms of `MiddlewareInstall` are non-null strings. A null platform would throw
  NullPointerException in `copyFiles` at line 108, and the model does not capture that.
- `getInstallers()` on `MiddlewareInstall` is not modelled; it is the `installerFiles` field.
- `System.out.println` and `System.exit` in `listInstallers` are the returned `Response`.
  - The lines are returned instead of printed.
  - The exit is a result, not the end of the process.
  - `getDigest()` on line 57 is read as the record's hash.
- Iteration order of a `HashMap` or `EnumMap` is not modelled.
  - It is a parameter of the listing.
  - It is the order of the loaded tree's bindings.
  - For `saveAllPatches` it is any order.
  - Ordering is claimed only for lists and record fields.
- The `InstallerMetaData` getters are the datatype's destructors.
  - The record is immutable by construction, so no lemma restates them.
