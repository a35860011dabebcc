/** The `listInstallers` cache command: the installer catalog printed as lines, filtered by
    type and by a version key matched ignoring case. */
module CacheListing {
  import opened Wrappers
  import opened Text
  import opened Metadata
  import opened UserSettings

  /** The command's `--type`, `--commonName` and `--version` options; `None` is an option
      left out. */
  datatype Options = Options(installerType: Option<InstallerType>, commonName: JString, version: JString)

  /** How the command ends, with the lines it printed: `CommandResponse.success`, or
      `System.exit(status)`. */
  datatype Response = Done(lines: seq<string>) | Exited(status: int, lines: seq<string>)

  /** `s != null && !s.isEmpty()`. */
  predicate Given(s: JString) {
    s.Some? && s.value != []
  }

  /** `keys` is how a map's key set iterates: every key exactly once, in some order. */
  ghost predicate Enumerates<K(!new)>(keys: seq<K>, domain: set<K>) {
    && (forall k :: k in domain <==> k in keys)
    && (forall i, j :: 0 <= i < j < |keys| ==> keys[i] != keys[j])
  }

  /** The filter on version keys (lines 46-52): each option that is set must equal the key
      ignoring case; a `null` key equals no option. Both options test the same key. */
  predicate Shown(key: JString, o: Options) {
    && (o.commonName.None? || (key.Some? && EqualsIgnoreCase(o.commonName.value, key.value)))
    && (o.version.None? || (key.Some? && EqualsIgnoreCase(o.version.value, key.value)))
  }

  /** The five lines of one installer record (lines 55-59); the digest is the record's hash. */
  function RecordLines(meta: InstallerMetaData): seq<string> {
    [ "  - location: " + Show(meta.location),
      "    platform: " + Show(meta.platform),
      "    digest: " + Show(meta.hash),
      "    dateAdded: " + Show(meta.dateAdded),
      "    version: " + Show(meta.productVersion) ]
  }

  /** The records of one version key, in list order. */
  function RecordsLines(metaData: seq<InstallerMetaData>): seq<string>
    decreases |metaData|
  {
    if metaData == [] then []
    else RecordsLines(metaData[..|metaData| - 1]) + RecordLines(metaData[|metaData| - 1])
  }

  /** One version key: nothing when filtered out, else its heading and its records. */
  function VersionLines(key: JString, metaData: seq<InstallerMetaData>, o: Options): seq<string> {
    if Shown(key, o) then ["  " + Show(key) + ":"] + RecordsLines(metaData) else []
  }

  /** The version keys of one type, in the inner map's iteration order `keys`. */
  function VersionsLines(versions: Versions, keys: seq<JString>, o: Options): seq<string>
    decreases |keys|
  {
    if keys == [] then []
    else
      var key := keys[|keys| - 1];
      VersionsLines(versions, keys[..|keys| - 1], o)
        + (if key in versions then VersionLines(key, versions[key], o) else [])
  }

  /** The section of one installer type: its heading, then its version keys. */
  function SectionLines(t: InstallerType, versions: Versions, keys: seq<JString>, o: Options,
                        typeText: InstallerType -> string): seq<string>
  {
    [typeText(t) + ":"] + VersionsLines(versions, keys, o)
  }

  /** What the loop over the catalog prints for the types of `order`: a type other than
      `--type` is skipped. */
  function CatalogLines(catalog: InstallerCatalog, order: seq<InstallerType>, versionOrder: InstallerType -> seq<JString>,
                        o: Options, typeText: InstallerType -> string): seq<string>
    decreases |order|
  {
    if order == [] then []
    else
      CatalogLines(catalog, order[..|order| - 1], versionOrder, o, typeText)
        + TypeLines(catalog, order[|order| - 1], versionOrder, o, typeText)
  }

  function TypeLines(catalog: InstallerCatalog, t: InstallerType, versionOrder: InstallerType -> seq<JString>,
                     o: Options, typeText: InstallerType -> string): seq<string>
  {
    if o.installerType.Some? && o.installerType.value != t then []
    else if t in catalog then SectionLines(t, catalog[t], versionOrder(t), o, typeText)
    else []
  }

  const CommonNameWithoutType := "--type cannot be null when commonName is specified"
  const VersionWithoutType := "--type cannot be null when version is specified"

  /** What `call()` (lines 25-65) prints and how it ends. `order` is the catalog's key
      iteration order and `versionOrder(t)` that of type t's versions; `typeText` renders a
      type in its heading. */
  function Listing(catalog: InstallerCatalog, order: seq<InstallerType>, versionOrder: InstallerType -> seq<JString>,
                   o: Options, typeText: InstallerType -> string): (r: Response)
    ensures r.Exited? <==> o.installerType.None? && (Given(o.commonName) || Given(o.version))
    ensures r.Exited? ==> r.status == 2 && |r.lines| == 1
  {
    if Given(o.commonName) && o.installerType.None? then Exited(2, [CommonNameWithoutType])
    else if Given(o.version) && o.installerType.None? then Exited(2, [VersionWithoutType])
    else Done(CatalogLines(catalog, order, versionOrder, o, typeText))
  }

  /** `call()` (lines 25-65) as the loops that print the listing. */
  method ListInstallers(catalog: InstallerCatalog, order: seq<InstallerType>,
                        versionOrder: InstallerType -> seq<JString>, o: Options,
                        typeText: InstallerType -> string)
    returns (r: Response)
    requires Enumerates(order, catalog.Keys)
    requires forall t :: t in catalog ==> Enumerates(versionOrder(t), catalog[t].Keys)
    ensures r == Listing(catalog, order, versionOrder, o, typeText)
  {
    if Given(o.commonName) && o.installerType.None? {
      return Exited(2, [CommonNameWithoutType]);
    }
    if Given(o.version) && o.installerType.None? {
      return Exited(2, [VersionWithoutType]);
    }
    var lines: seq<string> := [];
    for i := 0 to |order|
      invariant lines == CatalogLines(catalog, order[..i], versionOrder, o, typeText)
    {
      var itemType := order[i];
      assert order[..i + 1][..i] == order[..i];
      if o.installerType.Some? && o.installerType.value != itemType {
        continue;
      }
      lines := lines + [typeText(itemType) + ":"];
      var shown := ListVersions(catalog[itemType], versionOrder(itemType), o);
      lines := lines + shown;
    }
    assert order[..|order|] == order;
    return Done(lines);
  }

  /** The `forEach` over one type's versions (lines 45-61). */
  method ListVersions(versions: Versions, keys: seq<JString>, o: Options) returns (lines: seq<string>)
    requires Enumerates(keys, versions.Keys)
    ensures lines == VersionsLines(versions, keys, o)
  {
    lines := [];
    for j := 0 to |keys|
      invariant lines == VersionsLines(versions, keys[..j], o)
    {
      var installer := keys[j];
      VersionsStep(versions, keys, o, j);
      if o.commonName.Some? && !(installer.Some? && EqualsIgnoreCase(o.commonName.value, installer.value)) {
        continue;
      }
      if o.version.Some? && !(installer.Some? && EqualsIgnoreCase(o.version.value, installer.value)) {
        continue;
      }
      var records := ListRecords(versions[installer]);
      lines := lines + ["  " + Show(installer) + ":"] + records;
    }
    assert keys[..|keys|] == keys;
  }

  /** The loop over one version key's records (lines 54-60). */
  method ListRecords(metaData: seq<InstallerMetaData>) returns (lines: seq<string>)
    ensures lines == RecordsLines(metaData)
  {
    lines := [];
    for k := 0 to |metaData|
      invariant lines == RecordsLines(metaData[..k])
    {
      assert metaData[..k + 1][..k] == metaData[..k];
      lines := lines + RecordLines(metaData[k]);
    }
    assert metaData[..|metaData|] == metaData;
  }

  /** One more version key: its lines follow those of the keys before it. */
  lemma VersionsStep(versions: Versions, keys: seq<JString>, o: Options, j: nat)
    requires j < |keys| && keys[j] in versions
    ensures VersionsLines(versions, keys[..j + 1], o) ==
      VersionsLines(versions, keys[..j], o) + VersionLines(keys[j], versions[keys[j]], o)
  {
    assert keys[..j + 1][..j] == keys[..j];
  }

  lemma SliceLeft<T>(a: seq<T>, b: seq<T>, off: nat, n: nat)
    requires off + n <= |a|
    ensures (a + b)[off..off + n] == a[off..off + n]
  {
  }

  lemma SliceRight<T>(a: seq<T>, b: seq<T>)
    ensures (a + b)[|a|..|a| + |b|] == b
  {
  }

  // ---------------------------------------------------------------- properties

  /** The command exits only for a given commonName or version without `--type`, and then
      prints only the message naming the option it checked first. */
  lemma ExitMessages(catalog: InstallerCatalog, order: seq<InstallerType>, versionOrder: InstallerType -> seq<JString>,
                     o: Options, typeText: InstallerType -> string)
    ensures var r := Listing(catalog, order, versionOrder, o, typeText);
      && (o.installerType.None? && Given(o.commonName) ==> r == Exited(2, [CommonNameWithoutType]))
      && (o.installerType.None? && !Given(o.commonName) && Given(o.version) ==> r == Exited(2, [VersionWithoutType]))
      && (r.Done? ==> r.lines == CatalogLines(catalog, order, versionOrder, o, typeText))
  {
  }

  /** Types that are not `--type` print nothing. */
  lemma {:induction false} OtherTypesSilent(catalog: InstallerCatalog, order: seq<InstallerType>,
                                           versionOrder: InstallerType -> seq<JString>, o: Options,
                                           typeText: InstallerType -> string)
    requires o.installerType.Some? && o.installerType.value !in order
    ensures CatalogLines(catalog, order, versionOrder, o, typeText) == []
    decreases |order|
  {
    if order != [] {
      assert order[..|order| - 1] <= order;
      assert forall k :: k in order[..|order| - 1] ==> k in order;
      OtherTypesSilent(catalog, order[..|order| - 1], versionOrder, o, typeText);
    }
  }

  /** With `--type t`, the listing is exactly t's section, or nothing when the catalog has
      no t. */
  lemma {:induction false} TypeFilter(catalog: InstallerCatalog, order: seq<InstallerType>,
                                     versionOrder: InstallerType -> seq<JString>, o: Options,
                                     typeText: InstallerType -> string)
    requires Enumerates(order, catalog.Keys) && o.installerType.Some?
    ensures var t := o.installerType.value;
      CatalogLines(catalog, order, versionOrder, o, typeText) ==
        if t in catalog then SectionLines(t, catalog[t], versionOrder(t), o, typeText) else []
  {
    var t := o.installerType.value;
    if t in catalog {
      var i :| 0 <= i < |order| && order[i] == t;
      SelectedOnce(catalog, order, versionOrder, o, typeText, i);
    } else {
      OtherTypesSilent(catalog, order, versionOrder, o, typeText);
    }
  }

  lemma {:induction false} SelectedOnce(catalog: InstallerCatalog, order: seq<InstallerType>,
                                       versionOrder: InstallerType -> seq<JString>, o: Options,
                                       typeText: InstallerType -> string, i: nat)
    requires o.installerType.Some? && i < |order| && order[i] == o.installerType.value
    requires forall a, b :: 0 <= a < b < |order| ==> order[a] != order[b]
    ensures CatalogLines(catalog, order, versionOrder, o, typeText) ==
      TypeLines(catalog, order[i], versionOrder, o, typeText)
    decreases |order|
  {
    var init := order[..|order| - 1];
    var t := o.installerType.value;
    if i == |order| - 1 {
      assert forall a :: 0 <= a < |init| ==> init[a] == order[a] && order[a] != t;
      OtherTypesSilent(catalog, init, versionOrder, o, typeText);
    } else {
      assert init[i] == t;
      SelectedOnce(catalog, init, versionOrder, o, typeText, i);
      assert order[|order| - 1] != t;
    }
  }

  /** Without `--type`, every type of the catalog has its whole section in the listing. */
  lemma {:induction false} SectionListed(catalog: InstallerCatalog, order: seq<InstallerType>,
                                        versionOrder: InstallerType -> seq<JString>, o: Options,
                                        typeText: InstallerType -> string, i: nat)
    returns (off: nat)
    requires o.installerType.None? && i < |order| && order[i] in catalog
    ensures var lines := CatalogLines(catalog, order, versionOrder, o, typeText);
      var section := SectionLines(order[i], catalog[order[i]], versionOrder(order[i]), o, typeText);
      off + |section| <= |lines| && lines[off..off + |section|] == section
    decreases |order|
  {
    var init := order[..|order| - 1];
    var front := CatalogLines(catalog, init, versionOrder, o, typeText);
    var last := TypeLines(catalog, order[|order| - 1], versionOrder, o, typeText);
    var section := SectionLines(order[i], catalog[order[i]], versionOrder(order[i]), o, typeText);
    assert CatalogLines(catalog, order, versionOrder, o, typeText) == front + last;
    if i == |order| - 1 {
      off := |front|;
      assert last == section;
      SliceRight(front, last);
    } else {
      assert init[i] == order[i];
      off := SectionListed(catalog, init, versionOrder, o, typeText, i);
      SliceLeft(front, last, off, |section|);
    }
  }

  /** Every version key of a type has its lines, heading and records when it is shown,
      as one contiguous run of the type's listing. */
  lemma {:induction false} VersionListed(versions: Versions, keys: seq<JString>, o: Options, i: nat)
    returns (off: nat)
    requires i < |keys| && keys[i] in versions
    ensures var lines := VersionsLines(versions, keys, o);
      var shown := VersionLines(keys[i], versions[keys[i]], o);
      off + |shown| <= |lines| && lines[off..off + |shown|] == shown
    decreases |keys|
  {
    var init := keys[..|keys| - 1];
    var key := keys[|keys| - 1];
    var front := VersionsLines(versions, init, o);
    var last := if key in versions then VersionLines(key, versions[key], o) else [];
    var shown := VersionLines(keys[i], versions[keys[i]], o);
    assert VersionsLines(versions, keys, o) == front + last;
    if i == |keys| - 1 {
      off := |front|;
      assert last == shown;
      SliceRight(front, last);
    } else {
      assert init[i] == keys[i];
      off := VersionListed(versions, init, o, i);
      SliceLeft(front, last, off, |shown|);
    }
  }

  /** A version key no option lets through prints nothing, so a type whose keys are all
      filtered out still prints its heading, alone. */
  lemma {:induction false} HeadingAlone(versions: Versions, keys: seq<JString>, o: Options, t: InstallerType,
                                       typeText: InstallerType -> string)
    requires forall k :: k in versions ==> !Shown(k, o)
    ensures SectionLines(t, versions, keys, o, typeText) == [typeText(t) + ":"]
    decreases |keys|
  {
    NoneShown(versions, keys, o);
  }

  lemma {:induction false} NoneShown(versions: Versions, keys: seq<JString>, o: Options)
    requires forall k :: k in versions ==> !Shown(k, o)
    ensures VersionsLines(versions, keys, o) == []
    decreases |keys|
  {
    if keys != [] {
      NoneShown(versions, keys[..|keys| - 1], o);
    }
  }

  /** A commonName and a version that differ ignoring case admit no key, since both are
      compared with the same key: every section is its heading alone. */
  lemma ConflictingFilters(versions: Versions, keys: seq<JString>, o: Options, t: InstallerType,
                           typeText: InstallerType -> string)
    requires o.commonName.Some? && o.version.Some? && !EqualsIgnoreCase(o.commonName.value, o.version.value)
    ensures SectionLines(t, versions, keys, o, typeText) == [typeText(t) + ":"]
  {
    HeadingAlone(versions, keys, o, t, typeText);
  }

  /** The records of a shown key follow its heading in list order, five lines each. */
  lemma {:induction false} RecordsLayout(metaData: seq<InstallerMetaData>, i: nat)
    requires i < |metaData|
    ensures |RecordsLines(metaData)| == 5 * |metaData|
    ensures RecordsLines(metaData)[5 * i..5 * i + 5] == RecordLines(metaData[i])
    decreases |metaData|
  {
    var init := metaData[..|metaData| - 1];
    if i == |metaData| - 1 {
      if init != [] {
        RecordsLayout(init, 0);
      }
      assert |RecordsLines(init)| == 5 * i;
    } else {
      assert init[i] == metaData[i];
      RecordsLayout(init, i);
      var front := RecordsLines(init);
      assert (front + RecordLines(metaData[|metaData| - 1]))[5 * i..5 * i + 5] == front[5 * i..5 * i + 5];
    }
  }

  /** A shown version key prints its heading and then each of its records. */
  lemma VersionLayout(key: JString, metaData: seq<InstallerMetaData>, o: Options, i: nat)
    requires Shown(key, o) && i < |metaData|
    ensures var lines := VersionLines(key, metaData, o);
      && |lines| == 1 + 5 * |metaData| && lines[0] == "  " + Show(key) + ":"
      && lines[1 + 5 * i..6 + 5 * i] == RecordLines(metaData[i])
  {
    RecordsLayout(metaData, i);
    var lines := VersionLines(key, metaData, o);
    assert lines[1 + 5 * i..6 + 5 * i] == RecordsLines(metaData)[5 * i..5 * i + 5];
  }
}
