/** The cached-artifact records of the settings store and the installer-type enumeration. */
module Metadata {
  import opened Wrappers
  import opened Text

  /** The constants of `InstallerType` that this model names (a representative subset). */
  datatype InstallerType = FMW | JDK | WDT | WLS | SOA | OSB | OHS | ODI | DB19

  /** `InstallerType.name()`. */
  function Name(t: InstallerType): string {
    match t
    case FMW => "FMW"
    case JDK => "JDK"
    case WDT => "WDT"
    case WLS => "WLS"
    case SOA => "SOA"
    case OSB => "OSB"
    case OHS => "OHS"
    case ODI => "ODI"
    case DB19 => "DB19"
  }

  /** `InstallerType.valueOf(s)`: `None` where Java throws `IllegalArgumentException`. */
  function ValueOf(s: string): (r: Option<InstallerType>)
    ensures r.Some? ==> Name(r.value) == s
    ensures r.None? ==> forall t :: Name(t) != s
  {
    if s == "FMW" then Some(FMW)
    else if s == "JDK" then Some(JDK)
    else if s == "WDT" then Some(WDT)
    else if s == "WLS" then Some(WLS)
    else if s == "SOA" then Some(SOA)
    else if s == "OSB" then Some(OSB)
    else if s == "OHS" then Some(OHS)
    else if s == "ODI" then Some(ODI)
    else if s == "DB19" then Some(DB19)
    else None
  }

  lemma ValueOfName(t: InstallerType)
    ensures ValueOf(Name(t)) == Some(t)
  {
  }

  /** One cached installer for one platform. The record is immutable: the datatype's
      destructors are its getters. */
  datatype InstallerMetaData = InstallerMetaData(
    platform: JString, location: JString, hash: JString, dateAdded: JString, productVersion: JString)
  {
    /** `InstallerMetaData.toString()`. */
    function ToString(): string {
      "InstallerMetaData [platform=" + Show(platform) + ", location=" + Show(location)
      + ", hash=" + Show(hash) + ", dateAdded=" + Show(dateAdded)
      + ", version=" + Show(productVersion) + "]"
    }
  }

  /** One cached patch for one platform; `productVersion` is what `getPatchVersion()` returns. */
  datatype PatchMetaData = PatchMetaData(
    platform: JString, location: JString, hash: JString, dateAdded: JString, productVersion: JString)

  /** The printed fields of a record, in `toString` order. */
  function Shown(m: InstallerMetaData): seq<string> {
    [Show(m.platform), Show(m.location), Show(m.hash), Show(m.dateAdded), Show(m.productVersion)]
  }

  /** Reads the five printed fields back out of a `toString` text, or `None` if the text
      is not of that shape. */
  function ParseToString(s: string): Option<seq<string>> {
    var parts := Split(s, ',');
    if |parts| == 5 then ParseParts(parts[0], parts[1], parts[2], parts[3], parts[4]) else None
  }

  function ParseParts(p0: string, p1: string, p2: string, p3: string, p4: string): Option<seq<string>> {
    if StartsWith(p0, "InstallerMetaData [platform=") && StartsWith(p1, " location=")
       && StartsWith(p2, " hash=") && StartsWith(p3, " dateAdded=")
       && StartsWith(p4, " version=") && |p4| >= |" version=]"| && p4[|p4| - 1] == ']'
    then Some([p0[|"InstallerMetaData [platform="|..], p1[|" location="|..], p2[|" hash="|..],
               p3[|" dateAdded="|..], p4[|" version="|..|p4| - 1]])
    else None
  }

  lemma ParsePieces(m: InstallerMetaData)
    ensures var p := Pieces(m); ParseParts(p[0], p[1], p[2], p[3], p[4]) == Some(Shown(m))
  {
    var f, p := Shown(m), Pieces(m);
    assert p[0][|"InstallerMetaData [platform="|..] == f[0];
    assert p[1][|" location="|..] == f[1];
    assert p[2][|" hash="|..] == f[2];
    assert p[3][|" dateAdded="|..] == f[3];
    assert p[4][|" version="|..|p[4]| - 1] == f[4];
  }

  predicate StartsWith(s: string, prefix: string) {
    |prefix| <= |s| && s[..|prefix|] == prefix
  }

  /** The `toString` text as its five comma-free pieces joined by commas. */
  function Pieces(m: InstallerMetaData): seq<string> {
    ["InstallerMetaData [platform=" + Show(m.platform), " location=" + Show(m.location),
     " hash=" + Show(m.hash), " dateAdded=" + Show(m.dateAdded), " version=" + Show(m.productVersion) + "]"]
  }

  lemma JoinFive(a: string, b: string, c: string, d: string, e: string)
    ensures Join([a, b, c, d, e], [',']) == a + [','] + b + [','] + c + [','] + d + [','] + e
  {
    var sep := [','];
    assert [d, e][1..] == [e];
    assert Join([d, e], sep) == d + sep + e;
    assert [c, d, e][1..] == [d, e];
    assert Join([c, d, e], sep) == c + sep + (d + sep + e);
    assert [b, c, d, e][1..] == [c, d, e];
    assert Join([b, c, d, e], sep) == b + sep + (c + sep + (d + sep + e));
    assert [a, b, c, d, e][1..] == [b, c, d, e];
  }

  lemma ToStringIsJoin(m: InstallerMetaData)
    ensures m.ToString() == Join(Pieces(m), [','])
  {
    var f := Shown(m);
    var a := "InstallerMetaData [platform=" + f[0];
    JoinFive(a, " location=" + f[1], " hash=" + f[2], " dateAdded=" + f[3], " version=" + f[4] + "]");
    CommaLabel(a, " location=", ", location=", f[1]);
    var s1 := a + ", location=" + f[1];
    CommaLabel(s1, " hash=", ", hash=", f[2]);
    var s2 := s1 + ", hash=" + f[2];
    CommaLabel(s2, " dateAdded=", ", dateAdded=", f[3]);
    var s3 := s2 + ", dateAdded=" + f[3];
    CommaLabel(s3, " version=", ", version=", f[4] + "]");
    assert " version=" + f[4] + "]" == " version=" + (f[4] + "]");
    assert s3 + ", version=" + (f[4] + "]") == s3 + ", version=" + f[4] + "]";
  }

  /** A comma before a labelled value is the label's comma-prefixed form before the value. */
  lemma CommaLabel(x: string, tag: string, commaTag: string, value: string)
    requires commaTag == [','] + tag
    ensures x + [','] + (tag + value) == x + commaTag + value
  {
  }

  lemma PiecesHaveNoComma(m: InstallerMetaData)
    requires forall i :: 0 <= i < 5 ==> ',' !in Shown(m)[i]
    ensures forall i :: 0 <= i < 5 ==> ',' !in Pieces(m)[i]
  {
    var f := Shown(m);
    assert ',' !in f[0] && ',' !in f[1] && ',' !in f[2] && ',' !in f[3] && ',' !in f[4];
  }

  /** `toString` keeps every field recoverable as long as no printed field contains a comma. */
  lemma ToStringParses(m: InstallerMetaData)
    requires forall i :: 0 <= i < 5 ==> ',' !in Shown(m)[i]
    ensures ParseToString(m.ToString()) == Some(Shown(m))
  {
    var f, p := Shown(m), Pieces(m);
    PiecesHaveNoComma(m);
    ToStringIsJoin(m);
    SplitJoin(p, ',');
    ParsePieces(m);
  }
}
