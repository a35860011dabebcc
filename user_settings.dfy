/** `UserSettingsFile`: the catalog of cached installers and patches decoded from the
    loaded YAML tree, the lookups over it, the patch catalog writer, and the per-type
    installer settings that `applySettings` refills. Reading and writing the files is
    outside the model: a load is its resulting `Entries`, a save is the tree it is given. */
module UserSettings {
  import opened Wrappers
  import opened Text
  import opened Yaml
  import opened Folds
  import opened Metadata

  /** version -> the installers cached for it, one per platform. */
  type Versions = map<JString, seq<InstallerMetaData>>
  type InstallerCatalog = map<InstallerType, Versions>
  /** bug number -> the patches cached for it, one per platform. */
  type PatchCatalog = map<JString, seq<PatchMetaData>>

  // ---------------------------------------------------------------- installer records

  /** `createInstallerMetaData`: every field is read with a `(String)` cast. */
  function CreateInstallerMetaData(objectData: Entries): (r: Result<InstallerMetaData, Error>)
    ensures r.Success? <==>
      && AsString(Get(objectData, "digest")).Success?
      && AsString(Get(objectData, "added")).Success?
      && AsString(Get(objectData, "file")).Success?
      && AsString(Get(objectData, "version")).Success?
      && AsString(Get(objectData, "platform")).Success?
    ensures r.Failure? ==> r.error == ClassCast
  {
    var hash :- AsString(Get(objectData, "digest"));
    var dateAdded :- AsString(Get(objectData, "added"));
    var location :- AsString(Get(objectData, "file"));
    var productVersion :- AsString(Get(objectData, "version"));
    var platform :- AsString(Get(objectData, "platform"));
    Success(InstallerMetaData(platform, location, hash, dateAdded, productVersion))
  }

  /** An installer record in the catalog file's layout: platform, file, digest, version, added. */
  function InstallerEntry(m: InstallerMetaData): Entries {
    [(Some("platform"), FromString(m.platform)), (Some("file"), FromString(m.location)),
     (Some("digest"), FromString(m.hash)), (Some("version"), FromString(m.productVersion)),
     (Some("added"), FromString(m.dateAdded))]
  }

  predicate IsInstallerKey(k: JString) {
    k == Some("platform") || k == Some("file") || k == Some("digest") || k == Some("version") || k == Some("added")
  }

  /** Each catalog key lands in its own field (`digest` in hash, `added` in dateAdded, `file` in
      location, `version` in productVersion), and keys the decoder does not know are ignored. */
  lemma InstallerRecordRoundTrip(m: InstallerMetaData, extra: Entries)
    requires forall i :: 0 <= i < |extra| ==> !IsInstallerKey(extra[i].0)
    ensures CreateInstallerMetaData(InstallerEntry(m) + extra) == Success(m)
  {
    var e := InstallerEntry(m) + extra;
    GetFirst(e, 0, "platform");
    GetFirst(e, 1, "file");
    GetFirst(e, 2, "digest");
    GetFirst(e, 3, "version");
    GetFirst(e, 4, "added");
  }

  /** `(Map) value` followed by `createInstallerMetaData`: a `null` record throws when its
      fields are read, a record that is not a map fails the cast. */
  function DecodeInstallerRecord(v: Value): (r: Result<InstallerMetaData, Error>)
    ensures v.VMap? ==> r == CreateInstallerMetaData(v.entries)
    ensures v.VNull? ==> r == Failure(NullPointer)
    ensures !v.VMap? && !v.VNull? ==> r == Failure(ClassCast)
  {
    match v
    case VMap(e) => CreateInstallerMetaData(e)
    case VNull => Failure(NullPointer)
    case _ => Failure(ClassCast)
  }

  /** The value under one version key: a list yields its records in order, anything else
      is read as a single record and promoted to a one-element list. */
  function DecodeInstallerList(v: Value): (r: Result<seq<InstallerMetaData>, Error>)
    ensures v.VList? ==> (r.Success? <==> forall i :: 0 <= i < |v.items| ==> DecodeInstallerRecord(v.items[i]).Success?)
    ensures v.VList? && r.Success? ==>
      |r.value| == |v.items| && forall i :: 0 <= i < |v.items| ==> r.value[i] == DecodeInstallerRecord(v.items[i]).value
    ensures !v.VList? ==> (r.Success? <==> DecodeInstallerRecord(v).Success?)
    ensures !v.VList? && r.Success? ==> r.value == [DecodeInstallerRecord(v).value]
    ensures r.Failure? ==> r.error == NullPointer || r.error == ClassCast
  {
    if v.VList? then MapAll(v.items, DecodeInstallerRecord)
    else
      var m :- DecodeInstallerRecord(v);
      Success([m])
  }

  function VersionEntry(kv: (JString, Value)): Result<Option<(JString, seq<InstallerMetaData>)>, Error> {
    var list :- DecodeInstallerList(kv.1);
    Success(Some((kv.0, list)))
  }

  /** The map under one installer type (lines 312-327). */
  function DecodeVersions(v: Value): (r: Result<Versions, Error>)
    ensures r.Success? <==> v.VMap? && forall i :: 0 <= i < |v.entries| ==> DecodeInstallerList(v.entries[i].1).Success?
  {
    match v
    case VMap(e) =>
      var pairs :- Collect(e, VersionEntry);
      Success(PutAll(map[], pairs))
    case VNull => Failure(NullPointer)
    case _ => Failure(ClassCast)
  }

  /** A version key holds the list decoded from its last binding in the file. */
  lemma DecodedVersionsContent(e: Entries, k: JString)
    requires DecodeVersions(VMap(e)).Success?
    ensures k in DecodeVersions(VMap(e)).value <==> exists i :: 0 <= i < |e| && e[i].0 == k
    ensures forall i :: 0 <= i < |e| && e[i].0 == k && (forall j :: i < j < |e| ==> e[j].0 != k) ==>
              DecodeVersions(VMap(e)).value[k] == DecodeInstallerList(e[i].1).value
  {
    CollectedKeys(e, VersionEntry, k);
    assert forall i :: 0 <= i < |e| ==> (Yields(VersionEntry, e[i], k) <==> e[i].0 == k);
    forall i | 0 <= i < |e| && e[i].0 == k && (forall j :: i < j < |e| ==> e[j].0 != k)
      ensures DecodeVersions(VMap(e)).value[k] == DecodeInstallerList(e[i].1).value
    {
      CollectedLastWins(e, VersionEntry, i, k);
    }
  }

  /** The top-level key, upper-cased, names an installer type. */
  predicate IsTypeKey(k: JString, t: InstallerType) {
    k.Some? && k.value != "" && ToUpper(k.value) == Name(t)
  }

  /** One top-level entry: null and empty keys are skipped without reading the value; the
      value is decoded before the type name is resolved, and an unknown name is dropped. */
  function TypeEntry(kv: (JString, Value)): Result<Option<(InstallerType, Versions)>, Error> {
    if kv.0.None? || kv.0.value == "" then Success(None)
    else
      var versions :- DecodeVersions(kv.1);
      match ValueOf(ToUpper(kv.0.value))
      case None => Success(None)
      case Some(t) => Success(Some((t, versions)))
  }

  lemma TypeEntryYields(kv: (JString, Value), t: InstallerType)
    requires TypeEntry(kv).Success?
    ensures Yields(TypeEntry, kv, t) <==> IsTypeKey(kv.0, t)
  {
    ValueOfName(t);
  }

  /** What `getInstallers` returns for the loaded installer catalog. */
  function DecodeInstallers(allInstallers: Entries): Result<InstallerCatalog, Error> {
    var pairs :- Collect(allInstallers, TypeEntry);
    Success(PutAll(map[], pairs))
  }

  /** The load succeeds exactly when every entry with a non-empty key decodes, whether or not
      its key names an installer type. */
  lemma InstallersLoadIff(allInstallers: Entries)
    ensures DecodeInstallers(allInstallers).Success? <==>
      forall i :: 0 <= i < |allInstallers| && allInstallers[i].0.Some? && allInstallers[i].0.value != "" ==>
        DecodeVersions(allInstallers[i].1).Success?
  {
    assert forall i :: 0 <= i < |allInstallers| ==>
      (TypeEntry(allInstallers[i]).Success? <==>
        (allInstallers[i].0.None? || allInstallers[i].0.value == "" || DecodeVersions(allInstallers[i].1).Success?));
  }

  /** Entry i is the last whose key names type t. */
  ghost predicate LastTypeKey(allInstallers: Entries, i: int, t: InstallerType) {
    0 <= i < |allInstallers| && IsTypeKey(allInstallers[i].0, t)
    && forall j :: i < j < |allInstallers| ==> !IsTypeKey(allInstallers[j].0, t)
  }

  /** A loaded catalog holds exactly the types some key names once upper-cased, each with the
      versions decoded from the last such key; other keys are dropped. */
  lemma InstallersLoadedTypes(allInstallers: Entries, t: InstallerType)
    requires DecodeInstallers(allInstallers).Success?
    ensures t in DecodeInstallers(allInstallers).value <==>
      exists i :: 0 <= i < |allInstallers| && IsTypeKey(allInstallers[i].0, t)
    ensures forall i :: LastTypeKey(allInstallers, i, t) ==>
              DecodeInstallers(allInstallers).value[t] == DecodeVersions(allInstallers[i].1).value
  {
    forall i | 0 <= i < |allInstallers|
      ensures Yields(TypeEntry, allInstallers[i], t) <==> IsTypeKey(allInstallers[i].0, t)
    {
      TypeEntryYields(allInstallers[i], t);
    }
    CollectedKeys(allInstallers, TypeEntry, t);
    forall i | LastTypeKey(allInstallers, i, t)
      ensures DecodeInstallers(allInstallers).value[t] == DecodeVersions(allInstallers[i].1).value
    {
      CollectedLastWins(allInstallers, TypeEntry, i, t);
    }
  }

  /** The records under one version key (lines 316-325). */
  method ReadInstallerList(v: Value) returns (r: Result<seq<InstallerMetaData>, Error>)
    ensures r == DecodeInstallerList(v)
  {
    if v.VList? {
      var items := v.items;
      var list: seq<InstallerMetaData> := [];
      var l := 0;
      while l < |items|
        invariant 0 <= l <= |items|
        invariant MapAll(items[..l], DecodeInstallerRecord) == Success(list)
      {
        var record := DecodeInstallerRecord(items[l]);
        if record.Failure? {
          MapAllFailsAt(items, DecodeInstallerRecord, l);
          return Failure(record.error);
        }
        MapAllPrefixStep(items, DecodeInstallerRecord, l);
        list := list + [record.value];
        l := l + 1;
      }
      assert items[..l] == items;
      return Success(list);
    } else {
      var record := DecodeInstallerRecord(v);
      if record.Failure? {
        return Failure(record.error);
      }
      return Success([record.value]);
    }
  }

  /** The versions under one installer type (lines 312-327). */
  method ReadVersions(v: Value) returns (r: Result<Versions, Error>)
    ensures r == DecodeVersions(v)
  {
    if !v.VMap? {
      return Failure(if v.VNull? then NullPointer else ClassCast);
    }
    var installerValues := v.entries;
    var installerMetaData: Versions := map[];
    var j := 0;
    while j < |installerValues|
      invariant 0 <= j <= |installerValues|
      invariant Collect(installerValues[..j], VersionEntry).Success?
      invariant installerMetaData == PutAll(map[], Collect(installerValues[..j], VersionEntry).value)
    {
      var list := ReadInstallerList(installerValues[j].1);
      if list.Failure? {
        CollectFailsAt(installerValues, VersionEntry, j);
        return Failure(list.error);
      }
      assert VersionEntry(installerValues[j]) == Success(Some((installerValues[j].0, list.value)));
      CollectPrefixStep(installerValues, VersionEntry, j);
      PutAllStep(map[], Collect(installerValues[..j], VersionEntry).value, (installerValues[j].0, list.value));
      installerMetaData := installerMetaData[installerValues[j].0 := list.value];
      j := j + 1;
    }
    assert installerValues[..j] == installerValues;
    return Success(installerMetaData);
  }

  /** `getInstallers` (lines 296-337) over the loaded catalog. */
  method GetInstallers(allInstallers: Entries) returns (r: Result<InstallerCatalog, Error>)
    ensures r == DecodeInstallers(allInstallers)
  {
    var installerDetails: InstallerCatalog := map[];
    var i := 0;
    while i < |allInstallers|
      invariant 0 <= i <= |allInstallers|
      invariant Collect(allInstallers[..i], TypeEntry).Success?
      invariant installerDetails == PutAll(map[], Collect(allInstallers[..i], TypeEntry).value)
    {
      var key := allInstallers[i].0;
      if key.Some? && key.value != "" {
        var upper := ToUpper(key.value);
        var installerMetaData := ReadVersions(allInstallers[i].1);
        if installerMetaData.Failure? {
          CollectFailsAt(allInstallers, TypeEntry, i);
          return Failure(installerMetaData.error);
        }
        var installerType := ValueOf(upper);
        CollectPrefixStep(allInstallers, TypeEntry, i);
        if installerType.Some? {
          assert TypeEntry(allInstallers[i]) == Success(Some((installerType.value, installerMetaData.value)));
          PutAllStep(map[], Collect(allInstallers[..i], TypeEntry).value, (installerType.value, installerMetaData.value));
          installerDetails := installerDetails[installerType.value := installerMetaData.value];
        }
      } else {
        CollectPrefixStep(allInstallers, TypeEntry, i);
      }
      i := i + 1;
    }
    assert allInstallers[..i] == allInstallers;
    return Success(installerDetails);
  }

  // ---------------------------------------------------------------- platform lookups

  /** The platforms of a list of records, in order. */
  function Platforms(list: seq<InstallerMetaData>): (ps: seq<JString>)
    ensures |ps| == |list| && forall i :: 0 <= i < |list| ==> ps[i] == list[i].platform
  {
    seq(|list|, i requires 0 <= i < |list| => list[i].platform)
  }

  /** The same for patch records, a separate type in the program. */
  function PatchPlatforms(list: seq<PatchMetaData>): (ps: seq<JString>)
    ensures |ps| == |list| && forall i :: 0 <= i < |list| ==> ps[i] == list[i].platform
  {
    seq(|list|, i requires 0 <= i < |list| => list[i].platform)
  }

  /** Entry i is the first whose platform equals p, and every earlier platform is non-null. */
  ghost predicate FirstMatchAt(ps: seq<JString>, p: JString, i: int) {
    0 <= i < |ps| && ps[i].Some? && ps[i] == p && forall j :: 0 <= j < i ==> ps[j].Some? && ps[j] != p
  }

  /** Entry i has a null platform and is reached by the scan before any match. */
  ghost predicate NullReachedAt(ps: seq<JString>, p: JString, i: int) {
    0 <= i < |ps| && ps[i].None? && forall j :: 0 <= j < i ==> ps[j].Some? && ps[j] != p
  }

  ghost predicate NoMatch(ps: seq<JString>, p: JString) {
    forall j :: 0 <= j < |ps| ==> ps[j].Some? && ps[j] != p
  }

  /** The early-return scan `for (m : list) if (m.getPlatform().equals(p)) return m;`. */
  function FirstPlatform(ps: seq<JString>, p: JString): (r: Result<Option<nat>, Error>)
    ensures r.Success? && r.value.Some? ==> FirstMatchAt(ps, p, r.value.value)
    ensures r == Success(None) <==> NoMatch(ps, p)
    ensures r.Failure? <==> exists i :: NullReachedAt(ps, p, i)
    ensures r.Failure? ==> r.error == NullPointer
    decreases |ps|
  {
    if ps == [] then Success(None)
    else if ps[0].None? then
      assert NullReachedAt(ps, p, 0);
      Failure(NullPointer)
    else if ps[0] == p then
      assert FirstMatchAt(ps, p, 0);
      Success(Some(0))
    else
      var rest := FirstPlatform(ps[1..], p);
      assert forall j :: 0 < j < |ps| ==> ps[j] == ps[1..][j - 1];
      if rest.Failure? then
        assert forall k :: NullReachedAt(ps[1..], p, k) ==> NullReachedAt(ps, p, k + 1);
        Failure(NullPointer)
      else if rest.value.Some? then
        assert FirstMatchAt(ps, p, rest.value.value + 1);
        Success(Some(rest.value.value + 1))
      else Success(None)
  }

  /** The null-safe scan `if ("generic".equals(m.getPlatform())) return m;`. */
  function FirstGeneric(ps: seq<JString>): (r: Option<nat>)
    ensures r.Some? ==> r.value < |ps| && ps[r.value] == Some("generic")
                        && forall j :: 0 <= j < r.value ==> ps[j] != Some("generic")
    ensures r.None? <==> forall j :: 0 <= j < |ps| ==> ps[j] != Some("generic")
    decreases |ps|
  {
    if ps == [] then None
    else if ps[0] == Some("generic") then Some(0)
    else
      var rest := FirstGeneric(ps[1..]);
      assert forall j :: 0 < j < |ps| ==> ps[j] == ps[1..][j - 1];
      match rest
      case None => None
      case Some(k) => Some(k + 1)
  }

  /** The list stored under (type, version), or the empty list when either key is absent. */
  function Bucket(catalog: InstallerCatalog, t: InstallerType, version: JString): seq<InstallerMetaData> {
    if t in catalog && version in catalog[t] then catalog[t][version] else []
  }

  /** `getInstallerForPlatform` (lines 350-362) over a loaded catalog. */
  function GetInstallerForPlatform(catalog: InstallerCatalog, t: InstallerType, platformName: JString,
                                   installerVersion: JString): (r: Result<Option<InstallerMetaData>, Error>)
    ensures r.Success? && r.value.Some? ==>
      exists i :: FirstMatchAt(Platforms(Bucket(catalog, t, installerVersion)), platformName, i)
                  && r.value.value == Bucket(catalog, t, installerVersion)[i]
    ensures r == Success(None) <==> NoMatch(Platforms(Bucket(catalog, t, installerVersion)), platformName)
    ensures r.Failure? <==> exists i :: NullReachedAt(Platforms(Bucket(catalog, t, installerVersion)), platformName, i)
  {
    if t in catalog && catalog[t] != map[] && installerVersion in catalog[t] then
      var list := catalog[t][installerVersion];
      if list == [] then Success(None)
      else
        match FirstPlatform(Platforms(list), platformName)
        case Failure(e) => Failure(e)
        case Success(None) => Success(None)
        case Success(Some(i)) =>
          assert list == Bucket(catalog, t, installerVersion);
          Success(Some(list[i]))
    else Success(None)
  }

  /** An absent type or version is a miss, never an exception. */
  lemma InstallerLookupAbsent(catalog: InstallerCatalog, t: InstallerType, platformName: JString, installerVersion: JString)
    requires t !in catalog || installerVersion !in catalog[t]
    ensures GetInstallerForPlatform(catalog, t, platformName, installerVersion) == Success(None)
  {
  }

  /** `getPatchForPlatform` (lines 372-394) over a loaded patch catalog; `defaultBugNum` is
      `OPatchFile.DEFAULT_BUG_NUM`. */
  function GetPatchForPlatform(patches: PatchCatalog, platformName: JString, bugNumber: JString,
                               defaultBugNum: string): (r: Result<Option<PatchMetaData>, Error>)
    ensures var list := if bugNumber in patches then patches[bugNumber] else [];
      && (forall i :: FirstMatchAt(PatchPlatforms(list), platformName, i) ==> r == Success(Some(list[i])))
      && (r.Success? && r.value.Some? && NoMatch(PatchPlatforms(list), platformName) ==>
            && bugNumber == Some(defaultBugNum)
            && exists j :: FirstGeneric(PatchPlatforms(list)) == Some(j) && r.value.value == list[j])
      && (r.Success? && r.value.Some? ==> r.value.value in list)
      && (r == Success(None) <==>
            NoMatch(PatchPlatforms(list), platformName)
            && (bugNumber != Some(defaultBugNum) || FirstGeneric(PatchPlatforms(list)).None?))
      && (r.Failure? <==> exists i :: NullReachedAt(PatchPlatforms(list), platformName, i))
  {
    if patches != map[] && bugNumber in patches && patches[bugNumber] != [] then
      var list := patches[bugNumber];
      var ps := PatchPlatforms(list);
      match FirstPlatform(ps, platformName)
      case Failure(e) => Failure(e)
      case Success(Some(i)) => Success(Some(list[i]))
      case Success(None) =>
        if Some(defaultBugNum) == bugNumber then
          match FirstGeneric(ps)
          case None => Success(None)
          case Some(j) => Success(Some(list[j]))
        else Success(None)
    else Success(None)
  }

  /** For the default OPatch bug number, a catalog holding only a "generic" entry serves
      every platform. */
  lemma GenericPatchFallback(patches: PatchCatalog, platformName: JString, defaultBugNum: string, m: PatchMetaData)
    requires Some(defaultBugNum) in patches && patches[Some(defaultBugNum)] == [m]
    requires m.platform == Some("generic") && platformName != Some("generic")
    ensures GetPatchForPlatform(patches, platformName, Some(defaultBugNum), defaultBugNum) == Success(Some(m))
  {
    assert PatchPlatforms([m]) == [Some("generic")];
  }

  // ---------------------------------------------------------------- patch records

  /** `createPatchMetaData`: the stored `dateAdded` is ignored and replaced by `today`
      (`getTodayDate()`). */
  function CreatePatchMetaData(objectData: Entries, today: string): (r: Result<PatchMetaData, Error>)
    ensures r.Success? <==>
      && AsString(Get(objectData, "hash")).Success?
      && AsString(Get(objectData, "location")).Success?
      && AsString(Get(objectData, "patchVersion")).Success?
      && AsString(Get(objectData, "platform")).Success?
    ensures r.Success? ==> r.value.dateAdded == Some(today)
    ensures r.Failure? ==> r.error == ClassCast
  {
    var hash :- AsString(Get(objectData, "hash"));
    var location :- AsString(Get(objectData, "location"));
    var productVersion :- AsString(Get(objectData, "patchVersion"));
    var platform :- AsString(Get(objectData, "platform"));
    Success(PatchMetaData(platform, location, hash, Some(today), productVersion))
  }

  function DecodePatchRecord(v: Value, today: string): (r: Result<PatchMetaData, Error>)
    ensures v.VMap? ==> r == CreatePatchMetaData(v.entries, today)
    ensures v.VNull? ==> r == Failure(NullPointer)
    ensures !v.VMap? && !v.VNull? ==> r == Failure(ClassCast)
  {
    match v
    case VMap(e) => CreatePatchMetaData(e, today)
    case VNull => Failure(NullPointer)
    case _ => Failure(ClassCast)
  }

  function PatchDecoder(today: string): Value -> Result<PatchMetaData, Error> {
    v => DecodePatchRecord(v, today)
  }

  /** The value under one bug number: a list in order, or a single record promoted. */
  function DecodePatchList(v: Value, today: string): (r: Result<seq<PatchMetaData>, Error>)
    ensures v.VList? ==> (r.Success? <==> forall i :: 0 <= i < |v.items| ==> DecodePatchRecord(v.items[i], today).Success?)
    ensures v.VList? && r.Success? ==>
      |r.value| == |v.items| && forall i :: 0 <= i < |v.items| ==> r.value[i] == DecodePatchRecord(v.items[i], today).value
    ensures !v.VList? ==> (r.Success? <==> DecodePatchRecord(v, today).Success?)
    ensures !v.VList? && r.Success? ==> r.value == [DecodePatchRecord(v, today).value]
  {
    if v.VList? then MapAll(v.items, PatchDecoder(today))
    else
      var m :- DecodePatchRecord(v, today);
      Success([m])
  }

  /** One entry of the patch file: a null key is kept with an empty list and its value is
      not read; every other key, the empty one included, is decoded. */
  function PatchEntry(kv: (JString, Value), today: string): Result<Option<(JString, seq<PatchMetaData>)>, Error> {
    if kv.0.None? then Success(Some((None, [])))
    else
      var list :- DecodePatchList(kv.1, today);
      Success(Some((kv.0, list)))
  }

  function PatchEntryDecoder(today: string): ((JString, Value)) -> Result<Option<(JString, seq<PatchMetaData>)>, Error> {
    kv => PatchEntry(kv, today)
  }

  /** What `getAllPatches` returns for the loaded patch catalog. */
  function DecodePatches(allPatches: Entries, today: string): Result<PatchCatalog, Error> {
    var pairs :- Collect(allPatches, PatchEntryDecoder(today));
    Success(PutAll(map[], pairs))
  }

  /** The load succeeds exactly when the value of every entry with a non-null key decodes,
      the empty key included; the value under a null key is never read. */
  lemma PatchesLoadIff(allPatches: Entries, today: string)
    ensures DecodePatches(allPatches, today).Success? <==>
      forall i :: 0 <= i < |allPatches| && allPatches[i].0.Some? ==> DecodePatchList(allPatches[i].1, today).Success?
  {
    assert forall i :: 0 <= i < |allPatches| ==>
      (PatchEntryDecoder(today)(allPatches[i]).Success? <==>
        (allPatches[i].0.None? || DecodePatchList(allPatches[i].1, today).Success?));
  }

  /** In a successful load, an entry contributes bug number k exactly when its key is k. */
  lemma PatchEntryYields(allPatches: Entries, today: string, k: JString)
    requires DecodePatches(allPatches, today).Success?
    ensures forall i :: 0 <= i < |allPatches| ==> (Yields(PatchEntryDecoder(today), allPatches[i], k) <==> allPatches[i].0 == k)
  {
    forall i | 0 <= i < |allPatches|
      ensures Yields(PatchEntryDecoder(today), allPatches[i], k) <==> allPatches[i].0 == k
    {
      assert PatchEntryDecoder(today)(allPatches[i]).Success?;
    }
  }

  /** A loaded patch catalog has exactly the bug numbers of the file, null included. */
  lemma PatchesLoadedKeys(allPatches: Entries, today: string, k: JString)
    requires DecodePatches(allPatches, today).Success?
    ensures k in DecodePatches(allPatches, today).value <==> exists i :: 0 <= i < |allPatches| && allPatches[i].0 == k
  {
    PatchEntryYields(allPatches, today, k);
    CollectedKeys(allPatches, PatchEntryDecoder(today), k);
  }

  /** The last binding of a bug number decides what it holds: the empty list for a null bug
      number, the records decoded from that binding for every other. */
  lemma PatchesLoadedValue(allPatches: Entries, today: string, i: nat)
    requires DecodePatches(allPatches, today).Success?
    requires i < |allPatches| && forall j :: i < j < |allPatches| ==> allPatches[j].0 != allPatches[i].0
    ensures allPatches[i].0 in DecodePatches(allPatches, today).value
    ensures DecodePatches(allPatches, today).value[allPatches[i].0] ==
      if allPatches[i].0.None? then [] else DecodePatchList(allPatches[i].1, today).value
  {
    var k := allPatches[i].0;
    PatchEntryYields(allPatches, today, k);
    CollectedLastWins(allPatches, PatchEntryDecoder(today), i, k);
  }

  /** The records under one bug number (lines 407-413). */
  method ReadPatchList(v: Value, today: string) returns (r: Result<seq<PatchMetaData>, Error>)
    ensures r == DecodePatchList(v, today)
  {
    if v.VList? {
      var items := v.items;
      var list: seq<PatchMetaData> := [];
      var l := 0;
      while l < |items|
        invariant 0 <= l <= |items|
        invariant MapAll(items[..l], PatchDecoder(today)) == Success(list)
      {
        var record := DecodePatchRecord(items[l], today);
        assert PatchDecoder(today)(items[l]) == record;
        if record.Failure? {
          MapAllFailsAt(items, PatchDecoder(today), l);
          return Failure(record.error);
        }
        MapAllPrefixStep(items, PatchDecoder(today), l);
        list := list + [record.value];
        l := l + 1;
      }
      assert items[..l] == items;
      return Success(list);
    } else {
      var record := DecodePatchRecord(v, today);
      if record.Failure? {
        return Failure(record.error);
      }
      return Success([record.value]);
    }
  }

  /** `getAllPatches` (lines 401-417) over the loaded patch catalog. */
  method GetAllPatches(allPatches: Entries, today: string) returns (r: Result<PatchCatalog, Error>)
    ensures r == DecodePatches(allPatches, today)
  {
    var patchList: PatchCatalog := map[];
    var i: nat := 0;
    while i < |allPatches|
      invariant i <= |allPatches|
      invariant Collect(allPatches[..i], PatchEntryDecoder(today)).Success?
      invariant patchList == PutAll(map[], Collect(allPatches[..i], PatchEntryDecoder(today)).value)
    {
      var key := allPatches[i].0;
      var patchMetaDataList: seq<PatchMetaData> := [];
      if key.Some? {
        var list := ReadPatchList(allPatches[i].1, today);
        if list.Failure? {
          CollectFailsAt(allPatches, PatchEntryDecoder(today), i);
          return Failure(list.error);
        }
        patchMetaDataList := list.value;
      }
      PatchEntryStep(allPatches, today, i, patchMetaDataList);
      patchList := patchList[key := patchMetaDataList];
      i := i + 1;
    }
    assert allPatches[..i] == allPatches;
    return Success(patchList);
  }

  /** One more entry read by `getAllPatches`: its key is bound to its records. */
  lemma PatchEntryStep(allPatches: Entries, today: string, i: nat, list: seq<PatchMetaData>)
    requires i < |allPatches| && Collect(allPatches[..i], PatchEntryDecoder(today)).Success?
    requires allPatches[i].0.Some? ==> DecodePatchList(allPatches[i].1, today) == Success(list)
    requires allPatches[i].0.None? ==> list == []
    ensures Collect(allPatches[..i + 1], PatchEntryDecoder(today)).Success?
    ensures PutAll(map[], Collect(allPatches[..i + 1], PatchEntryDecoder(today)).value)
         == PutAll(map[], Collect(allPatches[..i], PatchEntryDecoder(today)).value)[allPatches[i].0 := list]
  {
    var f := PatchEntryDecoder(today);
    assert f(allPatches[i]) == Success(Some((allPatches[i].0, list)));
    CollectPrefixStep(allPatches, f, i);
    PutAllStep(map[], Collect(allPatches[..i], f).value, (allPatches[i].0, list));
  }

  /** A patch record as `saveAllPatches` writes it: patchVersion, location, hash, dateAdded,
      platform, in that order. */
  function PatchRecordValue(p: PatchMetaData): Value {
    VMap([(Some("patchVersion"), FromString(p.productVersion)), (Some("location"), FromString(p.location)),
          (Some("hash"), FromString(p.hash)), (Some("dateAdded"), FromString(p.dateAdded)),
          (Some("platform"), FromString(p.platform))])
  }

  function PatchListValue(list: seq<PatchMetaData>): (v: Value)
    ensures v.VList? && |v.items| == |list|
    ensures forall i :: 0 <= i < |list| ==> v.items[i] == PatchRecordValue(list[i])
  {
    VList(seq(|list|, i requires 0 <= i < |list| => PatchRecordValue(list[i])))
  }

  /** The tree `saveAllPatches` hands to the YAML writer: every non-null, non-empty bug number
      with its records in list order. */
  function PatchTree(allPatches: PatchCatalog): map<string, Value> {
    map k | k in allPatches && k.Some? && k.value != "" :: k.value := PatchListValue(allPatches[k])
  }

  /** A value of the catalog `saveAllPatches` is handed, as the method tells them apart: an
      `ArrayList`, whose elements may be null, any other `List`, or null. */
  datatype PatchListArg = ArrayList(records: seq<Option<PatchMetaData>>) | OtherList | NullList

  /** A bug number `saveAllPatches` writes: neither null nor empty. */
  predicate SavedKey(k: JString) {
    k.Some? && k.value != ""
  }

  /** One element of an `ArrayList` as written; a null element is dereferenced and throws. */
  function SavedRecord(o: Option<PatchMetaData>): Result<Value, Error> {
    match o
    case None => Failure(NullPointer)
    case Some(p) => Success(PatchRecordValue(p))
  }

  /** What `saveAllPatches` writes for one bug number (lines 429-447). An `ArrayList` is
      written record by record. Any other value takes the branch that casts it to a single
      `PatchMetaData`: a non-null `List` is never one and throws `ClassCastException`, and
      null passes the cast and throws `NullPointerException` at its first getter. */
  function SavedList(v: PatchListArg): (r: Result<Value, Error>)
    ensures v.OtherList? ==> r == Failure(ClassCast)
    ensures v.NullList? ==> r == Failure(NullPointer)
    ensures v.ArrayList? ==> (r.Success? <==> forall i :: 0 <= i < |v.records| ==> v.records[i].Some?)
    ensures v.ArrayList? && r.Failure? ==> r.error == NullPointer
    ensures v.ArrayList? && r.Success? ==>
      r.value.VList? && |r.value.items| == |v.records|
      && forall i :: 0 <= i < |v.records| ==> r.value.items[i] == PatchRecordValue(v.records[i].value)
  {
    match v
    case ArrayList(records) =>
      var items :- MapAll(records, SavedRecord);
      Success(VList(items))
    case OtherList => Failure(ClassCast)
    case NullList => Failure(NullPointer)
  }

  /** The tree handed to the YAML writer: every saved bug number with its written records. */
  function SavedTree(allPatches: map<JString, PatchListArg>): map<string, Value> {
    map k | k in allPatches && SavedKey(k) && SavedList(allPatches[k]).Success? :: k.value := SavedList(allPatches[k]).value
  }

  /** The records under one bug number (lines 429-447). */
  method SavePatchList(v: PatchListArg) returns (r: Result<Value, Error>)
    ensures r == SavedList(v)
  {
    match v
    case ArrayList(records) =>
      var list: seq<Value> := [];
      var j := 0;
      while j < |records|
        invariant 0 <= j <= |records|
        invariant MapAll(records[..j], SavedRecord) == Success(list)
      {
        var written := SavedRecord(records[j]);
        if written.Failure? {
          MapAllFailsAt(records, SavedRecord, j);
          return Failure(written.error);
        }
        MapAllPrefixStep(records, SavedRecord, j);
        list := list + [written.value];
        j := j + 1;
      }
      assert records[..j] == records;
      return Success(VList(list));
    case OtherList =>
      return Failure(ClassCast);
    case NullList =>
      return Failure(NullPointer);
  }

  /** After the bug numbers in `done`: each saved one could be written, and `patchList`
      holds exactly the saved ones with what was written for them. */
  ghost predicate SavedSoFar(allPatches: map<JString, PatchListArg>, done: set<JString>, patchList: map<string, Value>) {
    && (forall k :: k in done && k in allPatches && SavedKey(k) ==> SavedList(allPatches[k]).Success?)
    && (forall k :: k in patchList <==> Some(k) in done && Some(k) in allPatches && k != "")
    && (forall k :: k in patchList ==> patchList[k] == SavedList(allPatches[Some(k)]).value)
  }

  /** One more bug number handled by the loop of `saveAllPatches`. */
  lemma SavedStep(allPatches: map<JString, PatchListArg>, done: set<JString>, patchList: map<string, Value>,
                  key: JString, v: Value)
    requires SavedSoFar(allPatches, done, patchList) && key in allPatches
    requires SavedKey(key) ==> SavedList(allPatches[key]) == Success(v)
    ensures SavedSoFar(allPatches, done + {key}, if SavedKey(key) then patchList[key.value := v] else patchList)
  {
  }

  /** Once every bug number is handled, the tree is `SavedTree`. */
  lemma SavedComplete(allPatches: map<JString, PatchListArg>, patchList: map<string, Value>)
    requires SavedSoFar(allPatches, allPatches.Keys, patchList)
    ensures forall k :: k in allPatches && SavedKey(k) ==> SavedList(allPatches[k]).Success?
    ensures patchList == SavedTree(allPatches)
  {
    var tree := SavedTree(allPatches);
    forall k ensures k in patchList <==> k in tree {
      if k in tree {
        assert Some(k) in allPatches;
      }
    }
  }

  /** `saveAllPatches` (lines 424-451) up to the hand-off to the YAML writer. The bug numbers
      are visited in an order the map chooses; when several would throw, the exception is
      that of one of them. */
  method SaveAllPatches(allPatches: map<JString, PatchListArg>) returns (r: Result<map<string, Value>, Error>)
    ensures r.Success? <==> forall k :: k in allPatches && SavedKey(k) ==> SavedList(allPatches[k]).Success?
    ensures r.Success? ==> r.value == SavedTree(allPatches)
    ensures r.Failure? ==> exists k :: k in allPatches && SavedKey(k) && SavedList(allPatches[k]) == Failure(r.error)
  {
    var patchList: map<string, Value> := map[];
    var remaining := allPatches.Keys;
    ghost var done: set<JString> := {};
    while remaining != {}
      invariant done + remaining == allPatches.Keys && done !! remaining
      invariant SavedSoFar(allPatches, done, patchList)
      decreases remaining
    {
      var key :| key in remaining;
      remaining := remaining - {key};
      var written := Success(VNull);
      if SavedKey(key) {
        written := SavePatchList(allPatches[key]);
        if written.Failure? {
          assert SavedList(allPatches[key]) == Failure(written.error);
          return Failure(written.error);
        }
      }
      SavedStep(allPatches, done, patchList, key, written.value);
      if SavedKey(key) {
        patchList := patchList[key.value := written.value];
      }
      done := done + {key};
    }
    SavedComplete(allPatches, patchList);
    return Success(patchList);
  }

  /** A catalog as `getAllPatches` builds it: every value an `ArrayList` of records. */
  function AsArrayLists(allPatches: PatchCatalog): map<JString, PatchListArg> {
    map k | k in allPatches :: AsArrayList(allPatches[k])
  }

  function AsArrayList(list: seq<PatchMetaData>): PatchListArg {
    ArrayList(seq(|list|, i requires 0 <= i < |list| => Some(list[i])))
  }

  /** An `ArrayList` of records is written as `PatchListValue` writes the records. */
  lemma ArrayListSaves(list: seq<PatchMetaData>)
    ensures SavedList(AsArrayList(list)) == Success(PatchListValue(list))
  {
    var v := SavedList(AsArrayList(list));
    assert v.Success?;
    assert v.value.items == PatchListValue(list).items;
  }

  /** A catalog of `ArrayList`s saves without an exception, and to `PatchTree`. */
  lemma CatalogSaves(allPatches: PatchCatalog)
    ensures forall k :: k in allPatches && SavedKey(k) ==> SavedList(AsArrayLists(allPatches)[k]).Success?
    ensures SavedTree(AsArrayLists(allPatches)) == PatchTree(allPatches)
  {
    var args := AsArrayLists(allPatches);
    forall k | k in allPatches
      ensures SavedList(args[k]) == Success(PatchListValue(allPatches[k]))
    {
      ArrayListSaves(allPatches[k]);
    }
    var saved, tree := SavedTree(args), PatchTree(allPatches);
    forall name | name in saved
      ensures name in tree && saved[name] == tree[name]
    {
      var k := Some(name);
      assert k in allPatches && SavedKey(k);
    }
    forall name | name in tree
      ensures name in saved
    {
      var k := Some(name);
      assert k in args && SavedKey(k) && SavedList(args[k]).Success?;
    }
    assert saved.Keys == tree.Keys;
  }

  /** The records of a bug number as a reload produces them: dateAdded becomes today. */
  function Reloaded(list: seq<PatchMetaData>, today: string): (r: seq<PatchMetaData>)
    ensures |r| == |list| && forall i :: 0 <= i < |list| ==> r[i] == list[i].(dateAdded := Some(today))
  {
    seq(|list|, i requires 0 <= i < |list| => list[i].(dateAdded := Some(today)))
  }

  /** `entries` is a load of `tree`: every entry is a binding of the tree and every key occurs. */
  ghost predicate LoadOf(entries: Entries, tree: map<string, Value>) {
    && (forall i :: 0 <= i < |entries| ==> entries[i].0.Some? && entries[i].0.value in tree
                                           && entries[i].1 == tree[entries[i].0.value])
    && (forall k :: k in tree ==> exists i :: 0 <= i < |entries| && entries[i].0 == Some(k))
  }

  lemma PatchRecordReload(p: PatchMetaData, today: string)
    ensures DecodePatchRecord(PatchRecordValue(p), today) == Success(p.(dateAdded := Some(today)))
  {
    var e := PatchRecordValue(p).entries;
    PatchRecordFields(p);
    assert AsString(Get(e, "hash")) == Success(p.hash);
    assert AsString(Get(e, "location")) == Success(p.location);
    assert AsString(Get(e, "patchVersion")) == Success(p.productVersion);
    assert AsString(Get(e, "platform")) == Success(p.platform);
  }

  /** Each field of a written patch record is read back from its key. */
  lemma PatchRecordFields(p: PatchMetaData)
    ensures Get(PatchRecordValue(p).entries, "patchVersion") == FromString(p.productVersion)
    ensures Get(PatchRecordValue(p).entries, "location") == FromString(p.location)
    ensures Get(PatchRecordValue(p).entries, "hash") == FromString(p.hash)
    ensures Get(PatchRecordValue(p).entries, "platform") == FromString(p.platform)
  {
    var e := PatchRecordValue(p).entries;
    assert forall j :: 0 <= j < 4 ==> e[j].0 != Some("platform") by {
      assert "patchVersion" != "platform" && "location" != "platform" && "hash" != "platform" && "dateAdded" != "platform";
    }
    GetFirst(e, 0, "patchVersion");
    GetFirst(e, 1, "location");
    GetFirst(e, 2, "hash");
    GetFirst(e, 4, "platform");
  }

  lemma PatchListReload(list: seq<PatchMetaData>, today: string)
    ensures DecodePatchList(PatchListValue(list), today) == Success(Reloaded(list, today))
  {
    var v := PatchListValue(list);
    forall i | 0 <= i < |list|
      ensures DecodePatchRecord(v.items[i], today) == Success(list[i].(dateAdded := Some(today)))
    {
      PatchRecordReload(list[i], today);
    }
    var r := DecodePatchList(v, today);
    assert r.Success?;
    assert r.value == Reloaded(list, today);
  }

  lemma SavedEntryReload(allPatches: PatchCatalog, entries: Entries, today: string, i: nat)
    requires LoadOf(entries, PatchTree(allPatches)) && i < |entries|
    ensures entries[i].0 in allPatches
    ensures PatchEntryDecoder(today)(entries[i]) == Success(Some((entries[i].0, Reloaded(allPatches[entries[i].0], today))))
  {
    var k := entries[i].0;
    assert k.value in PatchTree(allPatches);
    assert k in allPatches && k.value != "";
    PatchListReload(allPatches[k], today);
  }

  lemma ReloadedEntriesCollect(allPatches: PatchCatalog, entries: Entries, today: string)
    requires LoadOf(entries, PatchTree(allPatches))
    ensures Collect(entries, PatchEntryDecoder(today)).Success?
  {
    forall i | 0 <= i < |entries| ensures PatchEntryDecoder(today)(entries[i]).Success? {
      SavedEntryReload(allPatches, entries, today, i);
    }
  }

  lemma ReloadedKey(allPatches: PatchCatalog, entries: Entries, today: string, k: JString)
    requires LoadOf(entries, PatchTree(allPatches))
    requires Collect(entries, PatchEntryDecoder(today)).Success?
    ensures k in PutAll(map[], Collect(entries, PatchEntryDecoder(today)).value)
        <==> k in allPatches && k.Some? && k.value != ""
  {
    var f := PatchEntryDecoder(today);
    CollectedKeys(entries, f, k);
    if k in allPatches && k.Some? && k.value != "" {
      assert k.value in PatchTree(allPatches);
      var i :| 0 <= i < |entries| && entries[i].0 == Some(k.value);
      SavedEntryReload(allPatches, entries, today, i);
      assert Yields(f, entries[i], k);
    }
    if exists i :: 0 <= i < |entries| && Yields(f, entries[i], k) {
      var i :| 0 <= i < |entries| && Yields(f, entries[i], k);
      SavedEntryReload(allPatches, entries, today, i);
      assert entries[i].0 == k;
      assert k.value in PatchTree(allPatches);
    }
  }

  lemma ReloadedValue(allPatches: PatchCatalog, entries: Entries, today: string, k: JString)
    requires LoadOf(entries, PatchTree(allPatches))
    requires Collect(entries, PatchEntryDecoder(today)).Success?
    requires k in PutAll(map[], Collect(entries, PatchEntryDecoder(today)).value)
    ensures k in allPatches
    ensures PutAll(map[], Collect(entries, PatchEntryDecoder(today)).value)[k] == Reloaded(allPatches[k], today)
  {
    var f := PatchEntryDecoder(today);
    CollectedKeys(entries, f, k);
    var i :| 0 <= i < |entries| && Yields(f, entries[i], k);
    SavedEntryReload(allPatches, entries, today, i);
    assert entries[i].0 == k;
    var last := LastWith(entries, k);
    SavedEntryReload(allPatches, entries, today, last);
    forall j | last < j < |entries| ensures !Yields(f, entries[j], k) {
      SavedEntryReload(allPatches, entries, today, j);
    }
    CollectedLastWins(entries, f, last, k);
  }

  /** The patch catalog a save followed by a reload on `today` should give. */
  function ReloadedCatalog(allPatches: PatchCatalog, today: string): PatchCatalog {
    map k | k in allPatches && k.Some? && k.value != "" :: Reloaded(allPatches[k], today)
  }

  lemma ReloadedMaps(allPatches: PatchCatalog, entries: Entries, today: string, got: PatchCatalog)
    requires LoadOf(entries, PatchTree(allPatches))
    requires Collect(entries, PatchEntryDecoder(today)).Success?
    requires got == PutAll(map[], Collect(entries, PatchEntryDecoder(today)).value)
    ensures got == ReloadedCatalog(allPatches, today)
  {
    ReloadedKeys(allPatches, entries, today, got);
    ReloadedValues(allPatches, entries, today, got);
    SameMap(got, ReloadedCatalog(allPatches, today));
  }

  lemma ReloadedKeys(allPatches: PatchCatalog, entries: Entries, today: string, got: PatchCatalog)
    requires LoadOf(entries, PatchTree(allPatches))
    requires Collect(entries, PatchEntryDecoder(today)).Success?
    requires got == PutAll(map[], Collect(entries, PatchEntryDecoder(today)).value)
    ensures got.Keys == ReloadedCatalog(allPatches, today).Keys
  {
    forall k ensures k in got <==> k in ReloadedCatalog(allPatches, today) {
      ReloadedKey(allPatches, entries, today, k);
    }
  }

  lemma ReloadedValues(allPatches: PatchCatalog, entries: Entries, today: string, got: PatchCatalog)
    requires LoadOf(entries, PatchTree(allPatches))
    requires Collect(entries, PatchEntryDecoder(today)).Success?
    requires got == PutAll(map[], Collect(entries, PatchEntryDecoder(today)).value)
    ensures forall k :: k in got ==> k in allPatches && got[k] == Reloaded(allPatches[k], today)
  {
    forall k | k in got ensures k in allPatches && got[k] == Reloaded(allPatches[k], today) {
      ReloadedValue(allPatches, entries, today, k);
    }
  }

  /** Two maps with the same keys that agree on every key are equal. */
  lemma SameMap(got: PatchCatalog, expected: PatchCatalog)
    requires got.Keys == expected.Keys && forall k :: k in got ==> got[k] == expected[k]
    ensures got == expected
  {
  }

  /** Saving and reloading the patch catalog keeps every non-null, non-empty bug number with
      its records in order and every field but dateAdded, which the reload sets to today. */
  lemma SavedPatchesReload(allPatches: PatchCatalog, entries: Entries, today: string)
    requires LoadOf(entries, PatchTree(allPatches))
    ensures DecodePatches(entries, today) == Success(ReloadedCatalog(allPatches, today))
  {
    ReloadedEntriesCollect(allPatches, entries, today);
    ReloadedMaps(allPatches, entries, today, PutAll(map[], Collect(entries, PatchEntryDecoder(today)).value));
  }

  /** The last index of an entry with key k. */
  function LastWith(entries: Entries, k: JString): (i: nat)
    requires exists i :: 0 <= i < |entries| && entries[i].0 == k
    ensures i < |entries| && entries[i].0 == k && forall j :: i < j < |entries| ==> entries[j].0 != k
    decreases |entries|
  {
    if entries[|entries| - 1].0 == k then |entries| - 1
    else
      var init := entries[..|entries| - 1];
      assert exists i :: 0 <= i < |init| && init[i].0 == k by {
        var i :| 0 <= i < |entries| && entries[i].0 == k;
        assert i < |init| && init[i] == entries[i];
      }
      LastWith(init, k)
  }
}
