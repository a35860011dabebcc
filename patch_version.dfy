/** The listing a `PatchVersionException` carries: every available version of a bug as
    `bugNumber_version`, joined with ", ". */
module PatchVersion {
  import opened Wrappers
  import opened Text

  /** The item of one available patch (line 23): the bug number, '_', the patch's version. */
  function Item(bugNumber: JString, version: JString): string {
    Show(bugNumber) + "_" + Show(version)
  }

  /** The items of `versionsAvailable`, one per patch, in list order. */
  function Items(bugNumber: JString, versionsAvailable: seq<JString>): (r: seq<string>)
    ensures |r| == |versionsAvailable|
    ensures forall i :: 0 <= i < |r| ==> r[i] == Item(bugNumber, versionsAvailable[i])
  {
    seq(|versionsAvailable|, i requires 0 <= i < |versionsAvailable| => Item(bugNumber, versionsAvailable[i]))
  }

  /** The message argument of the constructor (lines 22-24). */
  function Listing(bugNumber: JString, versionsAvailable: seq<JString>): string {
    Join(Items(bugNumber, versionsAvailable), ", ")
  }

  /** No available version gives the empty listing; one gives its item alone. */
  lemma ListingOfFew(bugNumber: JString, versionsAvailable: seq<JString>)
    ensures versionsAvailable == [] ==> Listing(bugNumber, versionsAvailable) == ""
    ensures |versionsAvailable| == 1 ==>
      Listing(bugNumber, versionsAvailable) == Item(bugNumber, versionsAvailable[0])
  {
  }

  /** A further available version adds its item after a separator, at the end. */
  lemma ListingAppend(bugNumber: JString, versionsAvailable: seq<JString>, version: JString)
    requires versionsAvailable != []
    ensures Listing(bugNumber, versionsAvailable + [version]) ==
      Listing(bugNumber, versionsAvailable) + ", " + Item(bugNumber, version)
  {
    var items := Items(bugNumber, versionsAvailable);
    assert Items(bugNumber, versionsAvailable + [version]) == items + [Item(bugNumber, version)];
    JoinAppend(items, ", ", Item(bugNumber, version));
  }

  lemma {:induction false} JoinAppend(items: seq<string>, sep: string, last: string)
    requires items != []
    ensures Join(items + [last], sep) == Join(items, sep) + sep + last
    decreases |items|
  {
    if |items| > 1 {
      assert (items + [last])[1..] == items[1..] + [last];
      JoinAppend(items[1..], sep, last);
    }
  }

  /** n items and n - 1 separators: the listing is as long as its items plus two characters
      per separator. */
  lemma {:induction false} ListingLength(bugNumber: JString, versionsAvailable: seq<JString>)
    requires versionsAvailable != []
    ensures |Listing(bugNumber, versionsAvailable)| ==
      TotalLength(Items(bugNumber, versionsAvailable)) + 2 * (|versionsAvailable| - 1)
  {
    JoinLength(Items(bugNumber, versionsAvailable), ", ");
  }

  function TotalLength(items: seq<string>): nat {
    if items == [] then 0 else |items[0]| + TotalLength(items[1..])
  }

  lemma {:induction false} JoinLength(items: seq<string>, sep: string)
    requires items != []
    ensures |Join(items, sep)| == TotalLength(items) + |sep| * (|items| - 1)
    decreases |items|
  {
    if |items| > 1 {
      JoinLength(items[1..], sep);
    }
  }

  // ---------------------------------------------------------------- reading a listing back

  /** A listing cut at its commas, with the blank each separator leaves before an item
      dropped. */
  function ParseListing(s: string): seq<string> {
    var pieces := Split(s, ',');
    [pieces[0]] + AllUnspaced(pieces[1..])
  }

  function Unspace(s: string): string {
    if s != [] && s[0] == ' ' then s[1..] else s
  }

  function AllUnspaced(pieces: seq<string>): seq<string> {
    if pieces == [] then [] else [Unspace(pieces[0])] + AllUnspaced(pieces[1..])
  }

  /** Items with " " before each: how the items after ", " look from ','. */
  function AllSpaced(items: seq<string>): (r: seq<string>)
    ensures |r| == |items| && forall k :: 0 <= k < |items| ==> r[k] == " " + items[k]
  {
    if items == [] then [] else [" " + items[0]] + AllSpaced(items[1..])
  }

  lemma {:induction false} UnspaceSpaced(items: seq<string>)
    ensures AllUnspaced(AllSpaced(items)) == items
    decreases |items|
  {
    if items != [] {
      UnspaceSpaced(items[1..]);
      assert Unspace(" " + items[0]) == items[0];
    }
  }

  lemma {:induction false} SpacedJoin(items: seq<string>)
    requires items != []
    ensures " " + Join(items, ", ") == Join(AllSpaced(items), ",")
    decreases |items|
  {
    if |items| > 1 {
      SpacedJoin(items[1..]);
      assert Join(AllSpaced(items), ",") == " " + items[0] + "," + Join(AllSpaced(items[1..]), ",");
    }
  }

  /** ", " between items is ',' between the items with a blank before all but the first. */
  lemma JoinSpaced(items: seq<string>)
    requires items != []
    ensures Join(items, ", ") == Join([items[0]] + AllSpaced(items[1..]), ",")
  {
    var rest := AllSpaced(items[1..]);
    var spaced := [items[0]] + rest;
    if |items| > 1 {
      var tail := Join(items[1..], ", ");
      SpacedJoin(items[1..]);
      assert spaced[1..] == rest;
      assert Join(spaced, ",") == items[0] + "," + Join(rest, ",");
      assert Join(items, ", ") == items[0] + ", " + tail;
      Regroup(items[0], ", ", ",", " ", tail);
    }
  }

  lemma Regroup(a: string, sep: string, left: string, right: string, t: string)
    requires sep == left + right
    ensures a + sep + t == a + left + (right + t)
  {
  }

  lemma SpacedNoComma(items: seq<string>)
    requires items != [] && forall k :: 0 <= k < |items| ==> ',' !in items[k]
    ensures var spaced := [items[0]] + AllSpaced(items[1..]);
      forall k :: 0 <= k < |spaced| ==> ',' !in spaced[k]
  {
    var spaced := [items[0]] + AllSpaced(items[1..]);
    forall k | 0 < k < |spaced|
      ensures ',' !in spaced[k]
    {
      assert spaced[k] == " " + items[k];
    }
  }

  /** Items without commas joined with ", " read back as themselves. */
  lemma ParseJoin(items: seq<string>)
    requires items != [] && forall k :: 0 <= k < |items| ==> ',' !in items[k]
    ensures ParseListing(Join(items, ", ")) == items
  {
    var spaced := [items[0]] + AllSpaced(items[1..]);
    JoinSpaced(items);
    SpacedNoComma(items);
    SplitJoin(spaced, ',');
    assert spaced[1..] == AllSpaced(items[1..]);
    UnspaceSpaced(items[1..]);
  }

  /** When no bug number or version contains a comma, the listing reads back as its
      items, in order. */
  lemma ListingParses(bugNumber: JString, versionsAvailable: seq<JString>)
    requires versionsAvailable != []
    requires ',' !in Show(bugNumber) && forall i :: 0 <= i < |versionsAvailable| ==> ',' !in Show(versionsAvailable[i])
    ensures ParseListing(Listing(bugNumber, versionsAvailable)) == Items(bugNumber, versionsAvailable)
  {
    var items := Items(bugNumber, versionsAvailable);
    forall k | 0 <= k < |items|
      ensures ',' !in items[k]
    {
      assert items[k] == Show(bugNumber) + "_" + Show(versionsAvailable[k]);
    }
    ParseJoin(items);
  }
}
