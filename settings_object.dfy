/** The `UserSettingsFile` object itself: the plain settings it reads from the loaded
    settings tree and the per-type installer settings that `applySettings` refills. */
module UserSettingsObject {
  import opened Wrappers
  import opened Text
  import opened Yaml
  import opened Folds
  import opened Metadata
  import opened UserSettings

  /** An `InstallerSettings` is built from the map under its type name; the model keeps that
      map (`None` for a `null` value) and not what `InstallerSettings` makes of it. */
  datatype InstallerSettings = InstallerSettings(raw: Option<Entries>)

  /** The value read for a `String` setting: a string, or `null` for a missing key or a value
      of another type. */
  function StringSetting(settings: Entries, key: string): (r: JString)
    ensures r.Some? <==> Get(settings, key).VStr?
    ensures r.Some? ==> exists i :: 0 <= i < |settings| && settings[i] == (Some(key), VStr(r.value))
  {
    match Get(settings, key)
    case VStr(s) => Some(s)
    case _ => None
  }

  /** The value read for an `Integer` setting, in the same way. */
  function IntSetting(settings: Entries, key: string): (r: Option<int>)
    ensures r.Some? <==> Get(settings, key).VInt?
    ensures r.Some? ==> exists i :: 0 <= i < |settings| && settings[i] == (Some(key), VInt(r.value))
  {
    match Get(settings, key)
    case VInt(n) => Some(n)
    case _ => None
  }

  /** The entries of the `installers` folder; a missing folder reads as empty. */
  function InstallerFolder(settings: Entries): (folder: Entries)
    ensures folder != [] ==> Get(settings, "installers") == VMap(folder)
  {
    match Get(settings, "installers")
    case VMap(e) => e
    case _ => []
  }

  /** `(Map<String, Object>) value`: a map or `null` passes the cast, anything else throws. */
  function AsMap(v: Value): (r: Result<Option<Entries>, Error>)
    ensures r.Success? <==> v.VMap? || v.VNull?
    ensures r.Success? ==> (r.value.Some? <==> v.VMap?)
    ensures r.Failure? ==> r.error == ClassCast
  {
    match v
    case VMap(e) => Success(Some(e))
    case VNull => Success(None)
    case _ => Failure(ClassCast)
  }

  /** One installer-folder entry: a null or empty key is skipped; the upper-cased name is
      resolved before the value is cast, so an unknown name is skipped whatever its value. */
  function SettingsEntry(kv: (JString, Value)): Result<Option<(InstallerType, InstallerSettings)>, Error> {
    if kv.0.None? || kv.0.value == "" then Success(None)
    else
      match ValueOf(ToUpper(kv.0.value))
      case None => Success(None)
      case Some(t) =>
        var raw :- AsMap(kv.1);
        Success(Some((t, InstallerSettings(raw))))
  }

  /** The per-type settings the loop puts, when no cast fails. */
  function LoadInstallerSettings(folder: Entries): Result<map<InstallerType, InstallerSettings>, Error> {
    var pairs :- Collect(folder, SettingsEntry);
    Success(PutAll(map[], pairs))
  }

  /** The loop stopped at an entry whose cast failed with `e`, after putting the entries
      before it. */
  ghost predicate StoppedAt(folder: Entries, loaded: map<InstallerType, InstallerSettings>, e: Error) {
    exists i :: 0 <= i < |folder| && Collect(folder[..i], SettingsEntry).Success?
                && SettingsEntry(folder[i]) == Failure(e)
                && loaded == PutAll(map[], Collect(folder[..i], SettingsEntry).value)
  }

  lemma SettingsEntryYields(kv: (JString, Value), t: InstallerType)
    requires SettingsEntry(kv).Success?
    ensures Yields(SettingsEntry, kv, t) <==> IsTypeKey(kv.0, t)
  {
    ValueOfName(t);
  }

  /** Loading fails exactly when an entry naming an installer type holds neither a map nor
      `null`; entries whose names are unknown never make it fail. */
  lemma InstallerSettingsLoadIff(folder: Entries)
    ensures LoadInstallerSettings(folder).Success? <==>
      forall i, t :: 0 <= i < |folder| && IsTypeKey(folder[i].0, t) ==> AsMap(folder[i].1).Success?
  {
    forall i | 0 <= i < |folder|
      ensures SettingsEntry(folder[i]).Success? <==>
        forall t :: IsTypeKey(folder[i].0, t) ==> AsMap(folder[i].1).Success?
    {
      var k := folder[i].0;
      if k.Some? && k.value != "" {
        match ValueOf(ToUpper(k.value))
        case None =>
        case Some(t) => assert IsTypeKey(k, t);
      }
    }
  }

  /** The loaded settings hold exactly the types some key names once upper-cased, each with
      the map under the last such key. */
  lemma InstallerSettingsLoadedTypes(folder: Entries, t: InstallerType, i: nat)
    requires LoadInstallerSettings(folder).Success?
    requires i < |folder| && IsTypeKey(folder[i].0, t)
    requires forall j :: i < j < |folder| ==> !IsTypeKey(folder[j].0, t)
    ensures t in LoadInstallerSettings(folder).value
    ensures LoadInstallerSettings(folder).value[t] == InstallerSettings(AsMap(folder[i].1).value)
  {
    forall j | 0 <= j < |folder|
      ensures Yields(SettingsEntry, folder[j], t) <==> IsTypeKey(folder[j].0, t)
    {
      SettingsEntryYields(folder[j], t);
    }
    CollectedLastWins(folder, SettingsEntry, i, t);
  }

  /** A type no key names has no settings after a load. */
  lemma InstallerSettingsAbsent(folder: Entries, t: InstallerType)
    requires LoadInstallerSettings(folder).Success?
    requires forall j :: 0 <= j < |folder| ==> !IsTypeKey(folder[j].0, t)
    ensures t !in LoadInstallerSettings(folder).value
  {
    forall j | 0 <= j < |folder|
      ensures !Yields(SettingsEntry, folder[j], t)
    {
      SettingsEntryYields(folder[j], t);
    }
    CollectedKeys(folder, SettingsEntry, t);
  }

  /** The loop over the `installers` folder (lines 475-488): the settings put so far, and
      whether a cast stopped it. */
  method ReadInstallerSettings(installerFolder: Entries)
    returns (loaded: map<InstallerType, InstallerSettings>, r: Outcome<Error>)
    ensures LoadInstallerSettings(installerFolder).Success? ==>
      r == Pass && loaded == LoadInstallerSettings(installerFolder).value
    ensures LoadInstallerSettings(installerFolder).Failure? ==>
      r == Fail(LoadInstallerSettings(installerFolder).error) && StoppedAt(installerFolder, loaded, r.error)
  {
    loaded := map[];
    var i := 0;
    while i < |installerFolder|
      invariant 0 <= i <= |installerFolder|
      invariant Collect(installerFolder[..i], SettingsEntry).Success?
      invariant loaded == PutAll(map[], Collect(installerFolder[..i], SettingsEntry).value)
    {
      var key := installerFolder[i].0;
      assert installerFolder[..i + 1][..i] == installerFolder[..i];
      if key.Some? && key.value != "" {
        var upper := ToUpper(key.value);
        var installerType := ValueOf(upper);
        if installerType.Some? {
          var raw := AsMap(installerFolder[i].1);
          if raw.Failure? {
            CollectFailsAt(installerFolder, SettingsEntry, i);
            return loaded, Fail(raw.error);
          }
          loaded := loaded[installerType.value := InstallerSettings(raw.value)];
        }
      }
      i := i + 1;
    }
    assert installerFolder[..i] == installerFolder;
    return loaded, Pass;
  }

  /** The keys of the plain settings in the settings file. */
  const PatchDirectoryKey := "patchDirectory"
  const InstallerDirectoryKey := "installerDirectory"
  const BuildContextDirectoryKey := "buildContextDirectory"
  const BuildEngineKey := "buildEngine"
  const ContainerEngineKey := "containerEngine"
  const AruRetryMaxKey := "aruRetryMax"
  const AruRetryIntervalKey := "aruRetryInterval"
  const InstallerSettingsFileKey := "installerSettingsFile"
  const PatchSettingsFileKey := "patchSettingsFile"

  /** The nine plain settings of a `UserSettingsFile`. */
  datatype PlainSettings = PlainSettings(
    patchDirectory: JString, installerDirectory: JString, buildContextDirectory: JString,
    buildEngine: JString, containerEngine: JString, aruRetryMax: Option<int>, aruRetryInterval: Option<int>,
    installerDetailsFile: JString, patchDetailsFile: JString)

  /** What `applySettings` reads for each plain setting (lines 462-471): a missing key or a
      value of another type reads as null. */
  function ReadPlain(s: Entries): PlainSettings {
    PlainSettings(StringSetting(s, PatchDirectoryKey), StringSetting(s, InstallerDirectoryKey),
                  StringSetting(s, BuildContextDirectoryKey), StringSetting(s, BuildEngineKey),
                  StringSetting(s, ContainerEngineKey), IntSetting(s, AruRetryMaxKey), IntSetting(s, AruRetryIntervalKey),
                  StringSetting(s, InstallerSettingsFileKey), StringSetting(s, PatchSettingsFileKey))
  }

  class UserSettingsFile {
    var installerSettings: map<InstallerType, InstallerSettings>
    var buildContextDirectory: JString
    var patchDirectory: JString
    var installerDirectory: JString
    var buildEngine: JString
    var containerEngine: JString
    var aruRetryMax: Option<int>
    var aruRetryInterval: Option<int>
    var installerDetailsFile: JString
    var patchDetailsFile: JString

    /** The fields as they are before any settings are applied. */
    constructor Init()
      ensures installerSettings == map[]
      ensures buildContextDirectory == None && patchDirectory == None && installerDirectory == None
      ensures buildEngine == None && containerEngine == None
      ensures aruRetryMax == None && aruRetryInterval == None
      ensures installerDetailsFile == None && patchDetailsFile == None
    {
      installerSettings := map[];
      buildContextDirectory := None;
      patchDirectory := None;
      installerDirectory := None;
      buildEngine := None;
      containerEngine := None;
      aruRetryMax := None;
      aruRetryInterval := None;
      installerDetailsFile := None;
      patchDetailsFile := None;
    }

    /** The plain settings as they are now. */
    function Plain(): PlainSettings
      reads this
    {
      PlainSettings(patchDirectory, installerDirectory, buildContextDirectory, buildEngine, containerEngine,
                    aruRetryMax, aruRetryInterval, installerDetailsFile, patchDetailsFile)
    }

    /** Every plain setting holds what was read for its key. */
    predicate PlainSettingsFrom(s: Entries)
      reads this
    {
      Plain() == ReadPlain(s)
    }

    /** A null or empty settings map changes nothing. Otherwise every plain setting is
        re-read (a missing one becomes null), the installer settings are cleared and refilled
        from the `installers` folder, and a failing cast leaves the entries before it. */
    method ApplySettings(settings: Option<Entries>) returns (r: Outcome<Error>)
      modifies this
      ensures settings.None? || settings.value == [] ==> r == Pass && unchanged(this)
      ensures settings.Some? && settings.value != [] ==> PlainSettingsFrom(settings.value)
      ensures settings.Some? && settings.value != [] && LoadInstallerSettings(InstallerFolder(settings.value)).Success? ==>
        r == Pass && installerSettings == LoadInstallerSettings(InstallerFolder(settings.value)).value
      ensures settings.Some? && settings.value != [] && LoadInstallerSettings(InstallerFolder(settings.value)).Failure? ==>
        r == Fail(LoadInstallerSettings(InstallerFolder(settings.value)).error)
        && StoppedAt(InstallerFolder(settings.value), installerSettings, r.error)
    {
      if settings.None? || settings.value == [] {
        return Pass;
      }
      var s := settings.value;
      SetPlainSettings(ReadPlain(s));
      var loaded;
      loaded, r := ReadInstallerSettings(InstallerFolder(s));
      installerSettings := loaded;
    }

    /** Sets the nine plain settings to `p` (lines 462-471). */
    method SetPlainSettings(p: PlainSettings)
      modifies this
      ensures Plain() == p
      ensures installerSettings == old(installerSettings)
    {
      patchDirectory, installerDirectory, buildContextDirectory := p.patchDirectory, p.installerDirectory, p.buildContextDirectory;
      buildEngine, containerEngine := p.buildEngine, p.containerEngine;
      aruRetryMax, aruRetryInterval := p.aruRetryMax, p.aruRetryInterval;
      installerDetailsFile, patchDetailsFile := p.installerDetailsFile, p.patchDetailsFile;
    }
  }
}
