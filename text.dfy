/**
 * The string primitives the metrics are built from: Python's `str.lower()`,
 * `re.findall(r'\b\w+\b', s)`, `str.split()`, `" ".join(parts)` and the
 * substring test `w in s`. Characters are Unicode code points (`char`);
 * the character classes are given for ASCII letters, digits and `_`, and
 * for the full set of characters Python treats as whitespace.
 */
module Text {

  /** Python's `\w` on ASCII: letters, digits and the underscore. */
  predicate IsWordChar(c: char) {
    ('a' <= c <= 'z') || ('A' <= c <= 'Z') || ('0' <= c <= '9') || c == '_'
  }

  /** Python's `str.isspace()`: the separators `str.split()` with no argument splits on. */
  predicate IsSpace(c: char) {
    c == ' ' || ('\t' <= c <= '\r') || ('\U{1C}' <= c <= '\U{1F}')
    || c == '\U{85}' || c == '\U{A0}' || c == '\U{1680}' || ('\U{2000}' <= c <= '\U{200A}')
    || c == '\U{2028}' || c == '\U{2029}' || c == '\U{202F}' || c == '\U{205F}' || c == '\U{3000}'
  }

  predicate IsNotSpace(c: char) { !IsSpace(c) }

  /** `str.lower()` on one character: ASCII capitals become small letters. */
  function Lower(c: char): (l: char)
    ensures IsWordChar(l) == IsWordChar(c)
    ensures 'A' <= c <= 'Z' ==> 'a' <= l <= 'z'
    ensures !('A' <= c <= 'Z') ==> l == c
  {
    if 'A' <= c <= 'Z' then (c as int - 'A' as int + 'a' as int) as char else c
  }

  /** `str.lower()`: a character-by-character map. */
  function LowerString(s: string): (r: string)
    ensures |r| == |s|
    ensures forall i | 0 <= i < |s| :: r[i] == Lower(s[i])
  {
    seq(|s|, i requires 0 <= i < |s| => Lower(s[i]))
  }

  /** Lower-casing commutes with concatenation, so lower-casing a joined text
      is joining the lower-cased parts. */
  lemma LowerStringAppend(a: string, b: string)
    ensures LowerString(a + b) == LowerString(a) + LowerString(b)
  {
    var l, r := LowerString(a + b), LowerString(a) + LowerString(b);
    assert |l| == |r|;
    forall i | 0 <= i < |l| ensures l[i] == r[i] {
      if i < |a| {
        assert (a + b)[i] == a[i];
      } else {
        assert (a + b)[i] == b[i - |a|];
      }
    }
  }

  /** `" ".join(parts)`. */
  function Join(parts: seq<string>): (joined: string)
    ensures parts == [] ==> joined == ""
  {
    if parts == [] then ""
    else if |parts| == 1 then parts[0]
    else parts[0] + " " + Join(parts[1..])
  }

  /** Joining one more part appends a separator and the part. */
  lemma {:induction false} JoinSnoc(parts: seq<string>, last: string)
    requires parts != []
    ensures Join(parts + [last]) == Join(parts) + " " + last
  {
    if |parts| == 1 {
      assert parts + [last] == [parts[0], last];
    } else {
      assert (parts + [last])[1..] == parts[1..] + [last];
      JoinSnoc(parts[1..], last);
    }
  }

  /** Joining two non-empty lists of parts puts one separator between their joins. */
  lemma {:induction false} JoinAppend(front: seq<string>, back: seq<string>)
    requires front != [] && back != []
    ensures Join(front + back) == Join(front) + " " + Join(back)
  {
    if |front| == 1 {
      assert (front + back)[1..] == back;
    } else {
      assert (front + back)[1..] == front[1..] + back;
      JoinAppend(front[1..], back);
    }
  }

  /** Python's `needle in haystack` on strings: a contiguous occurrence. */
  predicate Contains(haystack: string, needle: string)
    decreases |haystack|
  {
    needle <= haystack || (haystack != [] && Contains(haystack[1..], needle))
  }

  /** `needle` occurs in `haystack` starting at offset `i`. */
  predicate OccursAt(haystack: string, needle: string, i: nat) {
    i + |needle| <= |haystack| && haystack[i..i + |needle|] == needle
  }

  /** `Contains` finds exactly the needles that occur at some offset. */
  lemma {:induction false} ContainsAt(haystack: string, needle: string)
    ensures Contains(haystack, needle) <==> exists i: nat :: OccursAt(haystack, needle, i)
    decreases |haystack|
  {
    if needle <= haystack {
      assert OccursAt(haystack, needle, 0);
    } else if haystack == [] {
    } else {
      ContainsAt(haystack[1..], needle);
      if Contains(haystack[1..], needle) {
        var i: nat :| OccursAt(haystack[1..], needle, i);
        assert haystack[1..][i..i + |needle|] == haystack[i + 1..i + 1 + |needle|];
        assert OccursAt(haystack, needle, i + 1);
      } else {
        assert !OccursAt(haystack, needle, 0);
        forall i: nat | 0 < i && OccursAt(haystack, needle, i) ensures OccursAt(haystack[1..], needle, i - 1) {
          assert haystack[1..][i - 1..i - 1 + |needle|] == haystack[i..i + |needle|];
        }
      }
    }
  }

  /** An occurrence survives text appended after the haystack. */
  lemma {:induction false} ContainsAppend(haystack: string, right: string, needle: string)
    requires Contains(haystack, needle)
    ensures Contains(haystack + right, needle)
    decreases |haystack|
  {
    if needle <= haystack {
      assert (haystack + right)[..|needle|] == haystack[..|needle|];
    } else {
      assert (haystack + right)[1..] == haystack[1..] + right;
      ContainsAppend(haystack[1..], right, needle);
    }
  }

  /** An occurrence survives text prepended before the haystack. */
  lemma {:induction false} ContainsPrepend(left: string, haystack: string, needle: string)
    requires Contains(haystack, needle)
    ensures Contains(left + haystack, needle)
    decreases |left|
  {
    if left != [] {
      assert (left + haystack)[1..] == left[1..] + haystack;
      ContainsPrepend(left[1..], haystack, needle);
    } else {
      assert left + haystack == haystack;
    }
  }

  /** Length of the leading run of characters satisfying `p`. */
  function RunLength(s: string, p: char -> bool): (n: nat)
    ensures n <= |s|
    ensures forall i | 0 <= i < n :: p(s[i])
    ensures n < |s| ==> !p(s[n])
    decreases |s|
  {
    if s != [] && p(s[0]) then 1 + RunLength(s[1..], p) else 0
  }

  /** The maximal non-empty runs of characters satisfying `p`, left to right. */
  function Runs(s: string, p: char -> bool): (runs: seq<string>)
    ensures forall k | 0 <= k < |runs| :: runs[k] != [] && forall i | 0 <= i < |runs[k]| :: p(runs[k][i])
    ensures |runs| <= |s|
    decreases |s|
  {
    if s == [] then []
    else if !p(s[0]) then Runs(s[1..], p)
    else
      var n := RunLength(s, p);
      [s[..n]] + Runs(s[n..], p)
  }

  /** `re.findall(r'\b\w+\b', s)`: the maximal runs of word characters. */
  function FindWords(s: string): (words: seq<string>)
    ensures forall k | 0 <= k < |words| :: words[k] != [] && forall i | 0 <= i < |words[k]| :: IsWordChar(words[k][i])
  {
    Runs(s, IsWordChar)
  }

  /** `s.split()`: the maximal runs of non-whitespace characters. */
  function SplitWhitespace(s: string): (fields: seq<string>)
    ensures forall k | 0 <= k < |fields| :: fields[k] != [] && forall i | 0 <= i < |fields[k]| :: !IsSpace(fields[k][i])
  {
    Runs(s, IsNotSpace)
  }

  /** A leading run stops at the first character outside `p`. */
  lemma {:induction false} RunLengthStopsAt(a: string, c: char, b: string, p: char -> bool)
    requires !p(c)
    ensures RunLength(a + [c] + b, p) == RunLength(a, p)
    decreases |a|
  {
    if a == [] {
      assert (a + [c] + b)[0] == c;
    } else {
      assert (a + [c] + b)[0] == a[0];
      if p(a[0]) {
        assert (a + [c] + b)[1..] == a[1..] + [c] + b;
        RunLengthStopsAt(a[1..], c, b, p);
      }
    }
  }

  /** A separator splits the runs: the runs of `a + [c] + b` are those of `a`
      followed by those of `b` whenever `c` is outside `p`. */
  lemma {:induction false} RunsSplit(a: string, c: char, b: string, p: char -> bool)
    requires !p(c)
    ensures Runs(a + [c] + b, p) == Runs(a, p) + Runs(b, p)
    decreases |a|
  {
    var s := a + [c] + b;
    if a == [] {
      assert s[0] == c && s[1..] == b;
    } else if !p(a[0]) {
      assert s[0] == a[0] && s[1..] == a[1..] + [c] + b;
      RunsSplit(a[1..], c, b, p);
    } else {
      assert s[0] == a[0];
      RunLengthStopsAt(a, c, b, p);
      var n := RunLength(a, p);
      assert s[..n] == a[..n];
      assert s[n..] == a[n..] + [c] + b;
      RunsSplit(a[n..], c, b, p);
    }
  }

  /** A string with no character in `p` has no runs. */
  lemma {:induction false} RunsNone(s: string, p: char -> bool)
    requires forall i | 0 <= i < |s| :: !p(s[i])
    ensures Runs(s, p) == []
    decreases |s|
  {
    if s != [] {
      RunsNone(s[1..], p);
    }
  }

  /** A string made only of characters in `p` is a single run. */
  lemma {:induction false} RunsAll(s: string, p: char -> bool)
    requires s != []
    requires forall i | 0 <= i < |s| :: p(s[i])
    ensures Runs(s, p) == [s]
  {
    var n := RunLength(s, p);
    assert n == |s|;
    assert s[..n] == s && s[n..] == [];
  }

  /** Each part lower-cased. */
  function LowerAll(parts: seq<string>): (lowered: seq<string>)
    ensures |lowered| == |parts|
    ensures forall k | 0 <= k < |parts| :: lowered[k] == LowerString(parts[k])
  {
    seq(|parts|, k requires 0 <= k < |parts| => LowerString(parts[k]))
  }

  /** A non-empty run of word characters. */
  predicate IsWord(w: string) {
    w != [] && forall i | 0 <= i < |w| :: IsWordChar(w[i])
  }

  /** Words joined by single spaces are found again by the tokeniser, lower-cased. */
  lemma {:induction false} FindWordsLowerJoin(words: seq<string>)
    requires forall k | 0 <= k < |words| :: IsWord(words[k])
    ensures FindWords(LowerString(Join(words))) == LowerAll(words)
  {
    if words == [] {
    } else if |words| == 1 {
      RunsAll(LowerString(words[0]), IsWordChar);
    } else {
      var first, rest := words[0], Join(words[1..]);
      var lf, lr := LowerString(first), LowerString(rest);
      assert LowerString(Join(words)) == lf + [' '] + lr by {
        assert Join(words) == first + " " + rest;
        LowerStringAppend(first + " ", rest);
        LowerStringAppend(first, " ");
        assert LowerString(" ") == [' '];
      }
      assert Runs(lf + [' '] + lr, IsWordChar) == Runs(lf, IsWordChar) + Runs(lr, IsWordChar) by {
        RunsSplit(lf, ' ', lr, IsWordChar);
      }
      assert Runs(lf, IsWordChar) == [lf] by {
        assert IsWord(first);
        RunsAll(lf, IsWordChar);
      }
      FindWordsLowerJoin(words[1..]);
      assert LowerAll(words) == [lf] + LowerAll(words[1..]);
    }
  }

  /** A punctuation mark after the last word adds no word. */
  lemma FindWordsLowerJoinThen(words: seq<string>, c: char)
    requires forall k | 0 <= k < |words| :: IsWord(words[k])
    requires !IsWordChar(c) && Lower(c) == c
    ensures FindWords(LowerString(Join(words) + [c])) == LowerAll(words)
  {
    var j := Join(words);
    var l := LowerString(j);
    assert LowerString(j + [c]) == l + [c] by {
      LowerStringAppend(j, [c]);
      assert LowerString([c]) == [c];
    }
    assert Runs(l + [c], IsWordChar) == Runs(l, IsWordChar) by {
      RunsSplit(l, c, [], IsWordChar);
      assert l + [c] + [] == l + [c];
    }
    FindWordsLowerJoin(words);
  }
}
