/** The parts of Go's `strings` package the proxy relies on (`Index`,
    `Contains` and `Cut`), and the byte searches `IndexByte` and
    `LastIndexByte` that `net.SplitHostPort` is built on. */
module Strs {
  import opened Common

  /** `sep` occurs in `s` starting at position `i`. */
  predicate OccursAt(s: string, sep: string, i: nat) {
    i + |sep| <= |s| && s[i..i + |sep|] == sep
  }

  /** The first position at or after `from` where `sep` occurs in `s`. */
  function IndexFrom(s: string, sep: string, from: nat): (r: Option<nat>)
    requires from <= |s|
    ensures r.Some? ==> from <= r.value && OccursAt(s, sep, r.value)
    ensures r.Some? ==> forall j: nat :: from <= j < r.value ==> !OccursAt(s, sep, j)
    ensures r.None? ==> forall j: nat :: from <= j ==> !OccursAt(s, sep, j)
    decreases |s| - from
  {
    if OccursAt(s, sep, from) then Some(from)
    else if from == |s| then None
    else IndexFrom(s, sep, from + 1)
  }

  /** strings.Index: the first position where `sep` occurs in `s`. */
  function Index(s: string, sep: string): (r: Option<nat>)
    ensures r.Some? ==> OccursAt(s, sep, r.value)
    ensures r.Some? ==> forall j: nat :: j < r.value ==> !OccursAt(s, sep, j)
    ensures r.None? ==> forall j: nat :: !OccursAt(s, sep, j)
  {
    IndexFrom(s, sep, 0)
  }

  /** strings.Contains: `sep` occurs somewhere in `s`. */
  function Contains(s: string, sep: string): (b: bool)
    ensures b <==> exists i: nat :: OccursAt(s, sep, i)
  {
    Index(s, sep).Some?
  }

  datatype CutResult = CutResult(before: string, after: string, found: bool)

  /** strings.Cut: split `s` around the first occurrence of `sep`; when
      there is none, `before` is all of `s` and `after` is empty. */
  function Cut(s: string, sep: string): (r: CutResult)
    ensures r.found <==> Contains(s, sep)
    ensures r.found ==> s == r.before + sep + r.after
    ensures r.found ==> forall j: nat :: j < |r.before| ==> !OccursAt(s, sep, j)
    ensures !r.found ==> r.before == s && r.after == ""
  {
    match Index(s, sep)
    case None => CutResult(s, "", false)
    case Some(i) =>
      assert s == s[..i] + sep + s[i + |sep|..];
      CutResult(s[..i], s[i + |sep|..], true)
  }

  /** A string with a character that occurs nowhere in its first part is cut
      at the end of that part: the first occurrence wins. */
  lemma CutAtFirst(a: string, c: char, b: string)
    requires c !in a
    ensures Cut(a + [c] + b, [c]) == CutResult(a, b, true)
  {
    var s := a + [c] + b;
    assert OccursAt(s, [c], |a|);
    forall j: nat | j < |a| ensures !OccursAt(s, [c], j) {
      assert s[j] == a[j];
    }
    var i := Index(s, [c]).value;
    assert i == |a|;
  }

  /** Cutting at a one-character separator: the part before it never holds
      that character. */
  /** A one-character separator is contained exactly when it is an element. */
  lemma ContainsChar(s: string, c: char)
    ensures Contains(s, [c]) <==> c in s
  {
    if c in s {
      var k :| 0 <= k < |s| && s[k] == c;
      assert OccursAt(s, [c], k);
    }
    if Contains(s, [c]) {
      var i: nat :| OccursAt(s, [c], i);
      assert s[i] == s[i..i + 1][0] == c;
    }
  }

  lemma CutSingleBefore(s: string, c: char)
    ensures Cut(s, [c]).found <==> c in s
    ensures Cut(s, [c]).found ==> c !in Cut(s, [c]).before
  {
    var r := Cut(s, [c]);
    ContainsChar(s, c);
    if r.found && c in r.before {
      var k :| 0 <= k < |r.before| && r.before[k] == c;
      assert s[k] == c;
      assert OccursAt(s, [c], k);
    }
  }


  /** The first position of character `c` in `s` (Go's IndexByte). */
  function IndexByte(s: string, c: char): (r: Option<nat>)
    ensures r.Some? ==> r.value < |s| && s[r.value] == c && c !in s[..r.value]
    ensures r.None? ==> c !in s
  {
    if s == [] then None
    else if s[0] == c then Some(0)
    else match IndexByte(s[1..], c)
      case None => None
      case Some(i) =>
        assert s[..i + 1] == [s[0]] + s[1..][..i];
        Some(i + 1)
  }

  /** The last position of character `c` in `s` (Go's LastIndexByte). */
  function LastIndexByte(s: string, c: char): (r: Option<nat>)
    ensures r.Some? ==> r.value < |s| && s[r.value] == c && c !in s[r.value + 1..]
    ensures r.None? ==> c !in s
  {
    if s == [] then None
    else if s[|s| - 1] == c then Some(|s| - 1)
    else
      var r := LastIndexByte(s[..|s| - 1], c);
      assert r.Some? ==> s[r.value + 1..] == s[..|s| - 1][r.value + 1..] + [s[|s| - 1]];
      r
  }

  /** A character that does not occur after some position is found last there. */
  lemma LastIndexByteBefore(a: string, c: char, b: string)
    requires c !in b
    ensures LastIndexByte(a + [c] + b, c) == Some(|a|)
  {
    var s := a + [c] + b;
    var r := LastIndexByte(s, c);
    assert s[|a|] == c;
    assert s[|a| + 1..] == b;
  }

  /** A character that does not occur before some position is found first there. */
  lemma IndexByteAfter(a: string, c: char, b: string)
    requires c !in a
    ensures IndexByte(a + [c] + b, c) == Some(|a|)
  {
    var s := a + [c] + b;
    var r := IndexByte(s, c);
    assert s[|a|] == c;
    assert s[..|a|] == a;
  }
}
