/** The parts of `java.lang.String` and `java.nio.file.Path` the modelled code relies on. */
module Text {
  import opened Wrappers

  /** A Java `String` reference: `None` is `null`. */
  type JString = Option<string>

  /** What string concatenation prints for a possibly-null string. */
  function Show(s: JString): string {
    match s
    case None => "null"
    case Some(t) => t
  }

  function UpperChar(c: char): char {
    if 'a' <= c <= 'z' then (c as int - 32) as char else c
  }

  /** `String.toUpperCase()` on the ASCII letters. */
  function ToUpper(s: string): (r: string)
    ensures |r| == |s|
    ensures forall i :: 0 <= i < |s| ==> r[i] == UpperChar(s[i])
  {
    if s == [] then [] else [UpperChar(s[0])] + ToUpper(s[1..])
  }

  /** `a.equalsIgnoreCase(b)` for non-null `a` and `b`. */
  predicate EqualsIgnoreCase(a: string, b: string) {
    ToUpper(a) == ToUpper(b)
  }

  lemma EqualsIgnoreCaseIsEquivalence()
    ensures forall a :: EqualsIgnoreCase(a, a)
    ensures forall a, b :: EqualsIgnoreCase(a, b) ==> EqualsIgnoreCase(b, a)
    ensures forall a, b, c :: EqualsIgnoreCase(a, b) && EqualsIgnoreCase(b, c) ==> EqualsIgnoreCase(a, c)
  {
  }

  /** `s.endsWith(suffix)`. */
  predicate EndsWith(s: string, suffix: string) {
    |suffix| <= |s| && s[|s| - |suffix|..] == suffix
  }

  /** `s` without its trailing '/' characters. */
  function TrimSlashes(s: string): (r: string)
    ensures r <= s
    ensures r == [] || r[|r| - 1] != '/'
    ensures forall i :: |r| <= i < |s| ==> s[i] == '/'
  {
    if s == [] || s[|s| - 1] != '/' then s else TrimSlashes(s[..|s| - 1])
  }

  /** The part of `s` after its last '/'. */
  function AfterLastSlash(s: string): (r: string)
    ensures '/' !in r
    ensures exists k :: 0 <= k <= |s| && r == s[k..] && (k == 0 || s[k - 1] == '/')
  {
    if s == [] || s[|s| - 1] == '/' then
      assert s[|s|..] == [];
      []
    else
      var r := AfterLastSlash(s[..|s| - 1]);
      var k :| 0 <= k <= |s| - 1 && r == s[..|s| - 1][k..] && (k == 0 || s[..|s| - 1][k - 1] == '/');
      assert r + [s[|s| - 1]] == s[k..];
      r + [s[|s| - 1]]
  }

  /** `Paths.get(path).getFileName()` on a Unix file system, rendered with `toString()`:
      the last name element of the path. The empty path is its own file name; a path made
      only of '/' (the root) has none, and Java returns `null`. */
  function FileName(path: string): (r: JString)
    ensures path == [] ==> r == Some([])
    ensures r.None? <==> path != [] && forall i :: 0 <= i < |path| ==> path[i] == '/'
    ensures path != [] && r.Some? ==> r.value != [] && '/' !in r.value
  {
    if path == [] then Some([])
    else
      var t := TrimSlashes(path);
      if t == [] then None else Some(AfterLastSlash(t))
  }

  /** A name appended to a directory is the file name of the result. */
  lemma {:induction false} FileNameOfChild(dir: string, name: string)
    requires name != [] && '/' !in name
    ensures FileName(dir + "/" + name) == Some(name)
  {
    var p := dir + "/" + name;
    assert p[|p| - 1] == name[|name| - 1];
    assert TrimSlashes(p) == p;
    AfterLastSlashOfChild(dir + "/", name);
  }

  lemma {:induction false} AfterLastSlashOfChild(prefix: string, name: string)
    requires prefix != [] && prefix[|prefix| - 1] == '/' && '/' !in name
    ensures AfterLastSlash(prefix + name) == name
    decreases |name|
  {
    if name == [] {
      assert prefix + name == prefix;
    } else {
      var p := prefix + name;
      assert p[..|p| - 1] == prefix + name[..|name| - 1];
      AfterLastSlashOfChild(prefix, name[..|name| - 1]);
    }
  }

  /** `String.join(sep, items)` / `Collectors.joining(sep)`. */
  function Join(items: seq<string>, sep: string): (r: string)
    ensures items == [] ==> r == []
    ensures |items| == 1 ==> r == items[0]
  {
    if items == [] then []
    else if |items| == 1 then items[0]
    else items[0] + sep + Join(items[1..], sep)
  }

  /** Splits `s` at every occurrence of `c`; the inverse of `Join` on pieces that
      do not contain `c`. */
  function Split(s: string, c: char): (r: seq<string>)
    ensures |r| >= 1
    decreases |s|
  {
    if c !in s then [s]
    else
      var k := IndexOf(s, c);
      [s[..k]] + Split(s[k + 1..], c)
  }

  function IndexOf(s: string, c: char): (k: nat)
    requires c in s
    ensures k < |s| && s[k] == c && c !in s[..k]
  {
    if s[0] == c then 0 else 1 + IndexOf(s[1..], c)
  }

  lemma {:induction false} SplitAt(a: string, c: char, b: string)
    requires c !in a
    ensures Split(a + [c] + b, c) == [a] + Split(b, c)
  {
    var s := a + [c] + b;
    assert s[|a|] == c;
    assert s[..|a|] == a;
    var k := IndexOf(s, c);
    assert k <= |a| by {
      assert c in s[..|a| + 1];
    }
    assert s[..k] == a;
    assert s[k + 1..] == b;
  }

  lemma {:induction false} SplitJoin(items: seq<string>, c: char)
    requires items != []
    requires forall i :: 0 <= i < |items| ==> c !in items[i]
    ensures Split(Join(items, [c]), c) == items
  {
    if |items| == 1 {
    } else {
      assert Join(items, [c]) == items[0] + [c] + Join(items[1..], [c]);
      SplitAt(items[0], c, Join(items[1..], [c]));
      SplitJoin(items[1..], c);
    }
  }
}
