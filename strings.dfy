/** Optional values: a model handle that may have failed to load, an upload that may be absent. */
module Optional {
  datatype Option<+T> = None | Some(value: T)
}

/**
 * The string primitives the two core pieces rely on, with the semantics of the
 * host languages: Python's `str.find`, `in`, slicing, `strip` and `lower`, and
 * JavaScript's `split`, `join` and `startsWith`.  Strings are sequences of
 * characters.
 */
module Strings {

  /** `pat` occurs in `s` at index `i`. */
  predicate OccursAt(s: string, pat: string, i: int) {
    0 <= i && i + |pat| <= |s| && s[i..i + |pat|] == pat
  }

  /** `i` is the first index at or after `start` where `pat` occurs in `s`. */
  predicate IsFirstFrom(s: string, pat: string, start: nat, i: int) {
    start <= i && OccursAt(s, pat, i) &&
    forall j :: start <= j < i ==> !OccursAt(s, pat, j)
  }

  /** Python's `s.find(pat, start)`: the first index at or after `start` where `pat` occurs, or -1. */
  function FindFrom(s: string, pat: string, start: nat): (r: int)
    ensures r == -1 || IsFirstFrom(s, pat, start, r)
    ensures r == -1 <==> forall j :: start <= j ==> !OccursAt(s, pat, j)
    decreases |s| - start
  {
    if start + |pat| > |s| then -1
    else if s[start..start + |pat|] == pat then start
    else FindFrom(s, pat, start + 1)
  }

  /** The first occurrence is unique, so `find` returns it. */
  lemma {:induction false} FindFromIsFirst(s: string, pat: string, start: nat, i: int)
    requires IsFirstFrom(s, pat, start, i)
    ensures FindFrom(s, pat, start) == i
  {
  }

  /** Python's `pat in s` (and `s.find(pat) != -1`). */
  predicate Contains(s: string, pat: string) {
    FindFrom(s, pat, 0) != -1
  }

  lemma {:induction false} ContainsAt(s: string, pat: string, i: int)
    requires OccursAt(s, pat, i)
    ensures Contains(s, pat)
  {
  }

  /** An occurrence in a part of a string is an occurrence in the string. */
  lemma {:induction false} OccursInSlice(s: string, pat: string, i: nat, j: nat, k: int)
    requires i <= j <= |s|
    ensures OccursAt(s[i..j], pat, k) ==> OccursAt(s, pat, i + k)
  {
    if OccursAt(s[i..j], pat, k) {
      forall m | 0 <= m < |pat| ensures s[i + k + m] == pat[m] {
        assert s[i..j][k..k + |pat|][m] == pat[m];
      }
      assert s[i + k..i + k + |pat|] == pat;
    }
  }

  /** A part of a string that does not contain `pat` does not contain it either. */
  lemma {:induction false} NotContainsSlice(s: string, pat: string, i: nat, j: nat)
    requires i <= j <= |s|
    requires !Contains(s, pat)
    ensures !Contains(s[i..j], pat)
  {
    forall k ensures OccursAt(s[i..j], pat, k) ==> OccursAt(s, pat, i + k) {
      OccursInSlice(s, pat, i, j, k);
    }
  }

  /** The text before the first occurrence of `pat` does not contain `pat`. */
  lemma {:induction false} NotContainsBeforeFirst(s: string, pat: string, i: nat)
    requires pat != []
    requires IsFirstFrom(s, pat, 0, i)
    ensures !Contains(s[..i], pat)
  {
    assert s[..i] == s[0..i];
    forall k ensures OccursAt(s[0..i], pat, k) ==> OccursAt(s, pat, k) && k < i {
      OccursInSlice(s, pat, 0, i, k);
    }
  }

  /** A pattern whose first character is absent from `s` does not occur in it. */
  lemma {:induction false} NotContainsWithoutHead(s: string, pat: string)
    requires pat != [] && pat[0] !in s
    ensures !Contains(s, pat)
  {
  }

  /** A Python slice bound, normalised: negative bounds count from the end, then clamp to `[0, n]`. */
  function SliceBound(i: int, n: nat): (r: nat)
    ensures r <= n
    ensures 0 <= i <= n ==> r == i
    ensures i < 0 && 0 <= n + i ==> r == n + i
  {
    if i < 0 then (if i + n < 0 then 0 else i + n)
    else if i > n then n
    else i
  }

  /** Python's `s[start:stop]` with step 1: empty when the normalised start is not before the normalised stop. */
  function Slice(s: string, start: int, stop: int): (r: string)
    ensures 0 <= start <= stop <= |s| ==> r == s[start..stop]
    ensures 0 <= start <= |s| && stop == -1 && |s| > 0 ==>
              r == if start < |s| - 1 then s[start..|s| - 1] else []
  {
    var a, b := SliceBound(start, |s|), SliceBound(stop, |s|);
    if a < b then s[a..b] else []
  }

  /** Python's `str.isspace` for one character. */
  predicate IsSpace(c: char) {
    c == ' ' || '\t' <= c <= '\r' || '\U{1c}' <= c <= '\U{1f}' ||
    c == '\U{85}' || c == '\U{a0}' || c == '\U{1680}' || '\U{2000}' <= c <= '\U{200a}' ||
    c == '\U{2028}' || c == '\U{2029}' || c == '\U{202f}' || c == '\U{205f}' || c == '\U{3000}'
  }

  /** The number of whitespace characters `s.lstrip()` removes. */
  function LeadingSpaces(s: string): (n: nat)
    ensures n <= |s|
    ensures forall k :: 0 <= k < n ==> IsSpace(s[k])
    ensures n == |s| || !IsSpace(s[n])
    decreases |s|
  {
    if s != [] && IsSpace(s[0]) then 1 + LeadingSpaces(s[1..]) else 0
  }

  /** The length `s.rstrip()` keeps. */
  function TextEnd(s: string): (n: nat)
    ensures n <= |s|
    ensures forall k :: n <= k < |s| ==> IsSpace(s[k])
    ensures n == 0 || !IsSpace(s[n - 1])
    decreases |s|
  {
    if s != [] && IsSpace(s[|s| - 1]) then TextEnd(s[..|s| - 1]) else |s|
  }

  /**
   * Python's `s.strip()`: the part of `s` after its leading whitespace that neither
   * starts nor ends with whitespace, everything around it being whitespace.
   */
  function Strip(s: string): (r: string)
    ensures LeadingSpaces(s) + |r| <= |s|
    ensures r == s[LeadingSpaces(s)..LeadingSpaces(s) + |r|]
    ensures r == [] || (!IsSpace(r[0]) && !IsSpace(r[|r| - 1]))
    ensures forall k :: 0 <= k < LeadingSpaces(s) ==> IsSpace(s[k])
    ensures forall k :: LeadingSpaces(s) + |r| <= k < |s| ==> IsSpace(s[k])
  {
    var a, b := LeadingSpaces(s), TextEnd(s);
    if a < b then s[a..b] else []
  }

  /** Stripping cannot introduce an occurrence of a pattern. */
  lemma {:induction false} NotContainsStrip(s: string, pat: string)
    requires !Contains(s, pat)
    ensures !Contains(Strip(s), pat)
  {
    var a, r := LeadingSpaces(s), Strip(s);
    assert a + |r| <= |s| && r == s[a..a + |r|];
    NotContainsSlice(s, pat, a, a + |r|);
  }

  /** `c.lower()` for the letters A to Z; every other character is kept. */
  function LowerChar(c: char): char {
    if 'A' <= c <= 'Z' then (c as int + 32) as char else c
  }

  /** `s.lower()`, character by character. */
  function Lower(s: string): (r: string)
    ensures |r| == |s|
    ensures forall i :: 0 <= i < |r| ==> !('A' <= r[i] <= 'Z')
    ensures forall i :: 0 <= i < |s| && !('A' <= s[i] <= 'Z') ==> r[i] == s[i]
    ensures forall i :: 0 <= i < |s| && 'A' <= s[i] <= 'Z' ==> r[i] as int - s[i] as int == 'a' as int - 'A' as int
  {
    seq(|s|, i requires 0 <= i < |s| => LowerChar(s[i]))
  }

  /** Lower-casing a part of a text is taking that part of the lower-cased text. */
  lemma {:induction false} LowerSlice(s: string, i: nat, j: nat)
    requires i <= j <= |s|
    ensures Lower(s)[i..j] == Lower(s[i..j])
  {
    forall k | 0 <= k < j - i ensures Lower(s)[i..j][k] == Lower(s[i..j])[k] {
      assert Lower(s)[i + k] == LowerChar(s[i + k]);
    }
  }

  /** Lower-casing twice is lower-casing once. */
  lemma {:induction false} LowerIdempotent(s: string)
    ensures Lower(Lower(s)) == Lower(s)
  {
    var t := Lower(s);
    forall i | 0 <= i < |t| ensures Lower(t)[i] == t[i] {
      assert !('A' <= t[i] <= 'Z');
    }
  }

  /** JavaScript's `s.startsWith(prefix)`. */
  predicate StartsWith(s: string, prefix: string) {
    |prefix| <= |s| && s[..|prefix|] == prefix
  }

  /**
   * JavaScript's `s.split(sep)` (and the pieces of Python's `s.split(sep)`) for a
   * non-empty separator: the text between successive non-overlapping occurrences,
   * scanned left to right.
   */
  function SplitOn(s: string, sep: string): (parts: seq<string>)
    requires sep != []
    ensures |parts| >= 1
    ensures forall k :: 0 <= k < |parts| ==> !Contains(parts[k], sep)
    decreases |s|
  {
    var i := FindFrom(s, sep, 0);
    if i == -1 then [s]
    else
      NotContainsBeforeFirst(s, sep, i);
      [s[..i]] + SplitOn(s[i + |sep|..], sep)
  }

  /** The first piece of a split is the text before the first occurrence of the separator. */
  lemma {:induction false} FirstPiece(s: string, sep: string, cut: nat)
    requires sep != []
    requires IsFirstFrom(s, sep, 0, cut)
    ensures Contains(s, sep)
    ensures SplitOn(s, sep)[0] == s[..cut]
  {
    FindFromIsFirst(s, sep, 0, cut);
  }

  /** A text with a separator splits into the text before its first occurrence and the pieces of the rest. */
  lemma {:induction false} SplitOnRest(s: string, sep: string, cut: nat)
    requires sep != []
    requires IsFirstFrom(s, sep, 0, cut)
    ensures SplitOn(s, sep) == [s[..cut]] + SplitOn(s[cut + |sep|..], sep)
  {
    FindFromIsFirst(s, sep, 0, cut);
  }

  /** A text without the separator is one piece. */
  lemma {:induction false} SplitOnNone(s: string, sep: string)
    requires sep != []
    requires !Contains(s, sep)
    ensures SplitOn(s, sep) == [s]
  {
  }

  /** Separators are taken leftmost first and do not overlap: `"a\n\n\n\n\nb".split("\n\n")`. */
  lemma {:induction false} SplitLeftmostExample()
    ensures SplitOn("a\n\n\n\n\nb", "\n\n") == ["a", "", "\nb"]
  {
    var s, sep := "a\n\n\n\n\nb", "\n\n";
    assert s[0..2][0] == 'a';
    assert s[1..3] == sep;
    SplitOnRest(s, sep, 1);
    var rest := s[3..];
    assert rest == "\n\n\nb" && rest[0..2] == sep;
    SplitOnRest(rest, sep, 0);
    var last := rest[2..];
    assert last == "\nb" && last[0..2][1] == 'b';
    NotContainsWithoutHead(last[1..], sep);
    assert forall j :: 1 <= j ==> !OccursAt(last, sep, j);
    SplitOnNone(last, sep);
    assert s[..1] == "a" && rest[..0] == "" && rest[2..] == "\nb";
    assert SplitOn(rest, sep) == ["", "\nb"];
  }

  /** JavaScript's `parts.join(sep)`. */
  function Join(parts: seq<string>, sep: string): string {
    if |parts| == 0 then []
    else if |parts| == 1 then parts[0]
    else parts[0] + sep + Join(parts[1..], sep)
  }

  /** Joining the pieces of a split with the same separator gives back the text. */
  lemma {:induction false} JoinSplit(s: string, sep: string)
    requires sep != []
    ensures Join(SplitOn(s, sep), sep) == s
    decreases |s|
  {
    var i := FindFrom(s, sep, 0);
    if i != -1 {
      var rest := s[i + |sep|..];
      var tail := SplitOn(rest, sep);
      var parts := [s[..i]] + tail;
      assert SplitOn(s, sep) == parts;
      assert parts[1..] == tail;
      calc {
        Join(parts, sep);
        s[..i] + sep + Join(tail, sep);
        { JoinSplit(rest, sep); }
        s[..i] + sep + rest;
        { assert s[i..i + |sep|] == sep; }
        s;
      }
    }
  }

  /** Splitting pieces joined by a character they do not contain gives back the pieces. */
  lemma {:induction false} SplitJoin(parts: seq<string>, c: char)
    requires |parts| >= 1
    requires forall k :: 0 <= k < |parts| ==> c !in parts[k]
    ensures SplitOn(Join(parts, [c]), [c]) == parts
    decreases |parts|
  {
    var p := parts[0];
    if |parts| == 1 {
      NotContainsWithoutHead(p, [c]);
    } else {
      var rest := Join(parts[1..], [c]);
      var s := p + [c] + rest;
      assert Join(parts, [c]) == s;
      assert s[|p|..|p| + 1] == [c];
      forall j | 0 <= j < |p| ensures !OccursAt(s, [c], j) {
        assert s[j] == p[j];
      }
      FindFromIsFirst(s, [c], 0, |p|);
      assert s[..|p|] == p;
      assert s[|p| + 1..] == rest;
      SplitJoin(parts[1..], c);
      assert parts == [p] + parts[1..];
    }
  }
}
