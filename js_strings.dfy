/**
 * The JavaScript string and array built-ins the modelled code relies on:
 * `indexOf`, `split` with a one-character separator, `replace` with a string
 * pattern (first occurrence only), `startsWith` and `toLowerCase`
 * (restricted to the ASCII letters), and the truthiness of an optional string.
 */
module JsStrings {
  import opened Wrappers

  /** JavaScript truthiness of a string that may be `undefined`: present and not empty. */
  predicate Truthy(s: Option<string>) {
    s.Some? && s.value != ""
  }

  /** `xs.indexOf(x)`: the first position holding `x`, or -1 when there is none. */
  function IndexOf<T(==)>(xs: seq<T>, x: T): (i: int)
    ensures -1 <= i < |xs|
    ensures i == -1 <==> x !in xs
    ensures 0 <= i ==> xs[i] == x && x !in xs[..i]
  {
    if |xs| == 0 then -1
    else if xs[0] == x then 0
    else
      var j := IndexOf(xs[1..], x);
      assert xs[1..][..if j < 0 then 0 else j] == xs[1..if j < 0 then 1 else j + 1];
      if j == -1 then -1 else j + 1
  }

  /** The first occurrence of `x` is found right after a prefix that lacks it. */
  lemma {:induction false} IndexOfAfterPrefix<T>(a: seq<T>, x: T, b: seq<T>)
    requires x !in a
    ensures IndexOf(a + [x] + b, x) == |a|
  {
    if |a| > 0 {
      assert (a + [x] + b)[1..] == a[1..] + [x] + b;
      IndexOfAfterPrefix(a[1..], x, b);
    }
  }

  /** `parts.join(sep)` for a one-character separator. */
  function Join(parts: seq<string>, sep: char): (s: string)
    requires |parts| >= 1
    decreases |parts|
  {
    if |parts| == 1 then parts[0] else parts[0] + [sep] + Join(parts[1..], sep)
  }

  /**
   * `s.split(sep)` for a one-character separator: the maximal runs of
   * characters other than `sep`, in order. The empty string splits into one
   * empty part, and a string without `sep` into itself.
   */
  function Split(s: string, sep: char): (parts: seq<string>)
    ensures |parts| >= 1
    ensures |parts| == 1 <==> sep !in s
    ensures forall k :: 0 <= k < |parts| ==> sep !in parts[k]
    decreases |s|
  {
    if sep !in s then [s]
    else
      var i := IndexOf(s, sep);
      [s[..i]] + Split(s[i + 1..], sep)
  }

  /** Splitting and joining again gives back the original string. */
  lemma {:induction false} JoinSplit(s: string, sep: char)
    ensures Join(Split(s, sep), sep) == s
    decreases |s|
  {
    if sep in s {
      var i := IndexOf(s, sep);
      var t := s[i + 1..];
      var rest := Split(t, sep);
      assert Split(s, sep) == [s[..i]] + rest;
      JoinSplit(t, sep);
      JoinCons(s[..i], rest, sep);
      CutAround(s, i);
    }
  }

  /** A sequence is the part before position `i`, the element there, and the part after it. */
  lemma CutAround<T>(s: seq<T>, i: nat)
    requires i < |s|
    ensures s[..i] + [s[i]] + s[i + 1..] == s
  {
  }

  /** Joining a first part onto a non-empty list puts one separator between them. */
  lemma JoinCons(head: string, rest: seq<string>, sep: char)
    requires |rest| >= 1
    ensures Join([head] + rest, sep) == head + [sep] + Join(rest, sep)
  {
    assert ([head] + rest)[1..] == rest;
  }

  /** Joining parts free of the separator and splitting again gives back the parts. */
  lemma {:induction false} SplitJoin(parts: seq<string>, sep: char)
    requires |parts| >= 1
    requires forall k :: 0 <= k < |parts| ==> sep !in parts[k]
    ensures Split(Join(parts, sep), sep) == parts
    decreases |parts|
  {
    if |parts| > 1 {
      var tail := Join(parts[1..], sep);
      var s := parts[0] + [sep] + tail;
      assert Join(parts, sep) == s;
      IndexOfAfterPrefix(parts[0], sep, tail);
      assert s[..|parts[0]|] == parts[0];
      assert s[|parts[0]| + 1..] == tail;
      assert sep in s by { assert s[|parts[0]|] == sep; }
      SplitJoin(parts[1..], sep);
      assert parts == [parts[0]] + parts[1..];
    } else {
      assert Join(parts, sep) == parts[0];
    }
  }

  /**
   * The first part is everything before the first separator, or the whole
   * string when there is none.
   */
  lemma SplitHead(s: string, sep: char)
    ensures var h := Split(s, sep)[0];
      && sep !in h
      && (sep !in s ==> h == s)
      && (sep in s ==> |h| < |s| && s[..|h|] == h && s[|h|] == sep)
  {
  }

  /**
   * The second part, when there is one, is everything between the first and
   * the second separator, or between the first separator and the end.
   */
  lemma SplitSecond(s: string, sep: char)
    requires sep in s
    ensures var p := Split(s, sep);
      var start := |p[0]| + 1;
      var end := start + |p[1]|;
      && end <= |s| && s[start..end] == p[1]
      && (end == |s| || s[end] == sep)
  {
    var i := IndexOf(s, sep);
    var t := s[i + 1..];
    var p := Split(s, sep);
    assert p[0] == s[..i] && p[1] == Split(t, sep)[0];
    SplitHead(t, sep);
    assert s[i + 1..i + 1 + |p[1]|] == t[..|p[1]|];
  }

  /** Does `pat` occur in `s` starting at position `k`? */
  predicate OccursAt(s: string, pat: string, k: int) {
    0 <= k && k + |pat| <= |s| && s[k..k + |pat|] == pat
  }

  /**
   * `s.indexOf(pat, from)` for a string pattern. For an empty pattern and a
   * start past the end JavaScript answers `s.length` where this answers -1;
   * the modelled code searches only for a non-empty pattern from 0.
   */
  function IndexOfSubstring(s: string, pat: string, from: nat): (k: int)
    ensures k == -1 || (from <= k && OccursAt(s, pat, k))
    ensures forall j :: from <= j && (k == -1 || j < k) ==> !OccursAt(s, pat, j)
    decreases |s| - from
  {
    if from + |pat| > |s| then -1
    else if s[from..from + |pat|] == pat then from
    else IndexOfSubstring(s, pat, from + 1)
  }

  /** `s.replace(pat, rep)` for a string pattern: only the first occurrence is replaced. */
  function ReplaceFirst(s: string, pat: string, rep: string): (r: string)
    ensures (forall j :: !OccursAt(s, pat, j)) ==> r == s
    ensures forall k ::
              (OccursAt(s, pat, k) && forall j :: 0 <= j < k ==> !OccursAt(s, pat, j))
              ==> r == s[..k] + rep + s[k + |pat|..]
  {
    var k := IndexOfSubstring(s, pat, 0);
    if k < 0 then s else s[..k] + rep + s[k + |pat|..]
  }

  /** `s.startsWith(p)`. */
  predicate StartsWith(s: string, p: string) {
    |p| <= |s| && s[..|p|] == p
  }

  /** A string that starts with `pat` loses exactly that prefix when `pat` is replaced by nothing. */
  lemma ReplaceFirstOfPrefix(s: string, pat: string)
    requires StartsWith(s, pat)
    ensures ReplaceFirst(s, pat, "") == s[|pat|..]
  {
    assert OccursAt(s, pat, 0);
  }

  /** A string in which `pat` does not occur is left as it is. */
  lemma ReplaceFirstAbsent(s: string, pat: string)
    requires forall j :: !OccursAt(s, pat, j)
    ensures ReplaceFirst(s, pat, "") == s
  {
  }

  predicate IsUpperAscii(c: char) { 'A' <= c <= 'Z' }

  predicate IsLowerAscii(c: char) { 'a' <= c <= 'z' }

  function LowerChar(c: char): (r: char)
    ensures !IsUpperAscii(r)
    ensures IsUpperAscii(c) ==> IsLowerAscii(r) && r as int == c as int + 32
    ensures !IsUpperAscii(c) ==> r == c
  {
    if IsUpperAscii(c) then (c as int - 'A' as int + 'a' as int) as char else c
  }

  predicate HasNoUpperAscii(s: string) {
    forall k :: 0 <= k < |s| ==> !IsUpperAscii(s[k])
  }

  /** `s.toLowerCase()` on the ASCII letters; every other character is kept. */
  function ToLowerAscii(s: string): (r: string)
    ensures |r| == |s|
    ensures HasNoUpperAscii(r)
    ensures forall k :: 0 <= k < |s| ==> r[k] == LowerChar(s[k])
  {
    seq(|s|, k requires 0 <= k < |s| => LowerChar(s[k]))
  }

  /** Lower-casing works character by character, so it distributes over concatenation. */
  lemma ToLowerAsciiConcat(a: string, b: string)
    ensures ToLowerAscii(a + b) == ToLowerAscii(a) + ToLowerAscii(b)
  {
  }

  /** Lower-casing a string without capital letters changes nothing. */
  lemma ToLowerAsciiIdentity(s: string)
    requires HasNoUpperAscii(s)
    ensures ToLowerAscii(s) == s
  {
  }
}
