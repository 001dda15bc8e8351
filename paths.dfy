/** The parts of `pathlib` the program depends on: `Path.suffix`, joining a
    directory and a file name, and the order `sorted(directory.iterdir())`
    puts the entries of one directory in (the entries share the directory
    part, so they compare by name, code point by code point). */
module Paths {
  import opened Common

  /** `s.rfind(c)`, as an option instead of -1. */
  function LastIndexOf(s: string, c: char): (r: Option<nat>)
    ensures r.Some? ==> r.value < |s| && s[r.value] == c
                        && forall j :: r.value < j < |s| ==> s[j] != c
    ensures r.None? ==> c !in s
  {
    if s == [] then None
    else if s[|s| - 1] == c then Some(|s| - 1)
    else LastIndexOf(s[..|s| - 1], c)
  }

  /** `PurePath(name).suffix`: from the last dot on, provided the dot is
      neither the first nor the last character of the name; "" otherwise. */
  function Suffix(name: string): (r: string)
    ensures r == "" || (|r| >= 2 && r[0] == '.' && '.' !in r[1..] && |r| < |name|
                        && name[|name| - |r|..] == r)
  {
    match LastIndexOf(name, '.')
    case None => ""
    case Some(i) => if 0 < i < |name| - 1 then name[i..] else ""
  }

  /** A name without a dot has no suffix. */
  lemma NoDotNoSuffix(name: string)
    requires '.' !in name
    ensures Suffix(name) == ""
  {
  }

  /** The suffix of a name is the part after the name's last dot, when that
      dot is inside the name. */
  lemma SuffixOfStemAndExtension(stem: string, ext: string)
    requires stem != [] && ext != [] && '.' !in ext
    ensures Suffix(stem + "." + ext) == "." + ext
  {
    var name := stem + "." + ext;
    var i := |stem|;
    assert name[i] == '.';
    assert forall j :: i < j < |name| ==> name[j] == ext[j - i - 1];
    match LastIndexOf(name, '.')
    case None =>
    case Some(k) =>
      assert k == i;
      assert name[i..] == "." + ext;
  }

  /** Lower-casing a name does not move its dots. */
  lemma {:induction false} LastIndexOfLower(s: string)
    ensures LastIndexOf(Lower(s), '.') == LastIndexOf(s, '.')
  {
    if s != [] {
      var init := s[..|s| - 1];
      assert Lower(s)[..|s| - 1] == Lower(init);
      LastIndexOfLower(init);
    }
  }

  /** Taking the suffix and lower-casing commute, so `path.suffix.lower()`
      is the suffix of the lower-cased name. */
  lemma SuffixLower(name: string)
    ensures Suffix(Lower(name)) == Lower(Suffix(name))
  {
    LastIndexOfLower(name);
    match LastIndexOf(name, '.')
    case None =>
    case Some(i) =>
      if 0 < i < |name| - 1 {
        assert Lower(name)[i..] == Lower(name[i..]);
      }
  }

  /** `PurePath(directory) / name` rendered as a string: an absolute name
      replaces the directory, an empty one leaves it as it is, and any
      other name is appended after one separator. */
  function Join(directory: string, name: string): (p: string)
    ensures name == "" ==> p == directory
    ensures name != "" && name[0] == '/' ==> p == name
    ensures name != "" && name[0] != '/' ==>
              |p| == |directory| + 1 + |name| && p[..|directory|] == directory
              && p[|directory|] == '/' && p[|directory| + 1..] == name
  {
    if name == "" then directory
    else if name[0] == '/' then name
    else directory + "/" + name
  }

  /** Whatever the directory, the joined path ends with the name. */
  lemma JoinEndsWithName(directory: string, name: string)
    ensures var p := Join(directory, name); |name| <= |p| && p[|p| - |name|..] == name
  {
  }

  /** Python's `a <= b` on strings: lexicographic by code point, a proper
      prefix first. */
  predicate Below(a: string, b: string)
  {
    a == [] || (b != [] && (a[0] < b[0] || (a[0] == b[0] && Below(a[1..], b[1..]))))
  }

  lemma {:induction false} BelowReflexive(a: string)
    ensures Below(a, a)
  {
    if a != [] {
      BelowReflexive(a[1..]);
    }
  }

  lemma {:induction false} BelowTotal(a: string, b: string)
    ensures Below(a, b) || Below(b, a)
  {
    if a != [] && b != [] && a[0] == b[0] {
      BelowTotal(a[1..], b[1..]);
    }
  }

  lemma {:induction false} BelowTransitive(a: string, b: string, c: string)
    requires Below(a, b) && Below(b, c)
    ensures Below(a, c)
  {
    if a != [] && b != [] && c != [] && a[0] == b[0] == c[0] {
      BelowTransitive(a[1..], b[1..], c[1..]);
    }
  }

  lemma {:induction false} BelowAntisymmetric(a: string, b: string)
    requires Below(a, b) && Below(b, a)
    ensures a == b
  {
    if a != [] && b != [] {
      BelowAntisymmetric(a[1..], b[1..]);
      assert a == [a[0]] + a[1..] && b == [b[0]] + b[1..];
    }
  }

  /** In ascending order, as `sorted` leaves a list. */
  ghost predicate Ascending(s: seq<string>)
  {
    forall i, j :: 0 <= i < j < |s| ==> Below(s[i], s[j])
  }

  /** Inserting into an ascending list in front of the first larger entry. */
  function Insert(x: string, s: seq<string>): (r: seq<string>)
    ensures multiset(r) == multiset(s) + multiset{x}
    ensures |r| == |s| + 1
  {
    if s == [] then [x]
    else if Below(x, s[0]) then [x] + s
    else
      assert s == [s[0]] + s[1..];
      [s[0]] + Insert(x, s[1..])
  }

  lemma {:induction false} InsertAscending(x: string, s: seq<string>)
    requires Ascending(s)
    ensures Ascending(Insert(x, s))
  {
    if s == [] {
    } else if Below(x, s[0]) {
      var r := [x] + s;
      forall i, j | 0 <= i < j < |r| ensures Below(r[i], r[j]) {
        if i == 0 && j > 1 { BelowTransitive(x, s[0], s[j - 1]); }
      }
    } else {
      BelowTotal(x, s[0]);
      InsertAscending(x, s[1..]);
      var r := Insert(x, s[1..]);
      forall y | y in multiset(r) ensures Below(s[0], y) {
        assert y in multiset(s[1..]) + multiset{x};
        if y in multiset(s[1..]) {
          var k :| 0 <= k < |s[1..]| && s[1..][k] == y;
          assert s[k + 1] == y;
        }
      }
      forall i, j | 0 <= i < j < |r| + 1 ensures Below(([s[0]] + r)[i], ([s[0]] + r)[j]) {
        if i == 0 { assert r[j - 1] in multiset(r); }
      }
    }
  }

  /** `sorted(names)`, written as an insertion sort. */
  function Sort(names: seq<string>): (r: seq<string>)
    ensures multiset(r) == multiset(names)
    ensures |r| == |names|
  {
    if names == [] then []
    else
      assert names == [names[0]] + names[1..];
      Insert(names[0], Sort(names[1..]))
  }

  lemma {:induction false} SortAscending(names: seq<string>)
    ensures Ascending(Sort(names))
  {
    if names != [] {
      SortAscending(names[1..]);
      InsertAscending(names[0], Sort(names[1..]));
    }
  }

  lemma TailAscending(s: seq<string>)
    requires Ascending(s) && s != []
    ensures Ascending(s[1..])
  {
    forall a, b | 0 <= a < b < |s[1..]| ensures Below(s[1..][a], s[1..][b]) {
      assert s[1..][a] == s[a + 1] && s[1..][b] == s[b + 1];
    }
  }

  /** Two ascending arrangements of the same names start with the same name. */
  lemma SameFirst(s: seq<string>, t: seq<string>)
    requires Ascending(s) && Ascending(t) && multiset(s) == multiset(t) && s != []
    ensures t != [] && s[0] == t[0]
  {
    assert s[0] in multiset(t) && |t| > 0 && t[0] in multiset(s);
    var i :| 0 <= i < |t| && t[i] == s[0];
    var j :| 0 <= j < |s| && s[j] == t[0];
    BelowReflexive(s[0]);
    BelowReflexive(t[0]);
    assert Below(t[0], t[i]);
    assert Below(s[0], s[j]);
    BelowAntisymmetric(s[0], t[0]);
  }

  lemma MultisetTail(s: seq<string>)
    requires s != []
    ensures multiset(s[1..]) == multiset(s) - multiset{s[0]}
  {
    assert s == [s[0]] + s[1..];
  }

  /** There is exactly one ascending arrangement of a collection of names,
      so any sorting algorithm, Python's among them, yields `Sort`. */
  lemma {:induction false} AscendingUnique(s: seq<string>, t: seq<string>)
    requires Ascending(s) && Ascending(t) && multiset(s) == multiset(t)
    ensures s == t
    decreases |s|
  {
    if s == [] {
      assert |t| == |multiset(t)| == 0;
    } else {
      SameFirst(s, t);
      MultisetTail(s);
      MultisetTail(t);
      TailAscending(s);
      TailAscending(t);
      AscendingUnique(s[1..], t[1..]);
      assert s == [s[0]] + s[1..] && t == [t[0]] + t[1..];
    }
  }

  /** `Sort` is the ascending permutation of its input. */
  lemma SortIsSorted(names: seq<string>, sorted: seq<string>)
    requires Ascending(sorted) && multiset(sorted) == multiset(names)
    ensures Sort(names) == sorted
  {
    SortAscending(names);
    AscendingUnique(Sort(names), sorted);
  }
}
