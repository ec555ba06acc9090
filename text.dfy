/** The Python string operations the loaders rely on, on `seq<char>`: str.isspace, str.strip,
    str.splitlines / str.split at a set of separator characters, str.join with a
    one-character separator, str.replace of one character, str.lower and str.endswith. */
module Text {

  /** Python's str.isspace on a single character. */
  predicate IsSpace(c: char)
  {
    c == ' ' || '\t' <= c <= '\r' || '\U{1C}' <= c <= '\U{1F}' || c == '\U{85}' || c == '\U{A0}'
    || c == '\U{1680}' || '\U{2000}' <= c <= '\U{200A}' || c == '\U{2028}' || c == '\U{2029}'
    || c == '\U{202F}' || c == '\U{205F}' || c == '\U{3000}'
  }

  /** The characters at which Python's str.splitlines ends a line
      (\n, \v, \f, \r, \x1c, \x1d, \x1e, \x85, U+2028, U+2029). */
  predicate IsLineBreak(c: char)
  {
    '\n' <= c <= '\r' || '\U{1C}' <= c <= '\U{1E}' || c == '\U{85}' || c == '\U{2028}' || c == '\U{2029}'
  }

  predicate IsNewline(c: char)
  {
    c == '\n'
  }

  /** No leading and no trailing whitespace. */
  predicate Trimmed(s: string)
  {
    s == [] || (!IsSpace(s[0]) && !IsSpace(s[|s| - 1]))
  }

  /** Python's str.lstrip(): the suffix left after the leading whitespace. */
  function StripLeft(s: string): (r: string)
    ensures |r| <= |s| && r == s[|s| - |r|..]
    ensures r == [] || !IsSpace(r[0])
  {
    if s != [] && IsSpace(s[0]) then StripLeft(s[1..]) else s
  }

  /** What str.lstrip() removes is whitespace. */
  lemma {:induction false} StripLeftRemovesSpace(s: string)
    ensures forall k :: 0 <= k < |s| - |StripLeft(s)| ==> IsSpace(s[k])
  {
    if s != [] && IsSpace(s[0]) {
      StripLeftRemovesSpace(s[1..]);
    }
  }

  /** Python's str.rstrip(): the prefix left before the trailing whitespace. */
  function StripRight(s: string): (r: string)
    ensures |r| <= |s| && r == s[..|r|]
    ensures r == [] || !IsSpace(r[|r| - 1])
  {
    if s != [] && IsSpace(s[|s| - 1]) then StripRight(s[..|s| - 1]) else s
  }

  /** What str.rstrip() removes is whitespace. */
  lemma {:induction false} StripRightRemovesSpace(s: string)
    ensures forall k :: |StripRight(s)| <= k < |s| ==> IsSpace(s[k])
  {
    if s != [] && IsSpace(s[|s| - 1]) {
      StripRightRemovesSpace(s[..|s| - 1]);
    }
  }

  /** Python's str.strip(): the result is trimmed and leaves an already trimmed string
      alone (StripBlank and StripAvoids say what else it keeps). */
  function Strip(s: string): (r: string)
    ensures Trimmed(r)
    ensures Trimmed(s) ==> r == s
  {
    StripIsTrimmed(s);
    StripTrimmed(s);
    StripRight(StripLeft(s))
  }

  lemma StripIsTrimmed(s: string)
    ensures Trimmed(StripRight(StripLeft(s)))
  {
    var left := StripLeft(s);
    var r := StripRight(left);
    if r != [] {
      assert r[0] == left[0];
    }
  }

  /** Stripping adds no character: a string without separators stays without one. */
  lemma StripAvoids(s: string, isSep: char -> bool)
    requires forall k :: 0 <= k < |s| ==> !isSep(s[k])
    ensures forall k :: 0 <= k < |Strip(s)| ==> !isSep(Strip(s)[k])
  {
    var left := StripLeft(s);
    var r := StripRight(left);
    assert left == s[|s| - |left|..];
    assert r == left[..|r|];
    assert forall c :: c in r ==> c in s;
  }

  /** The stripped string is empty exactly when `s` is all whitespace. */
  lemma StripBlank(s: string)
    ensures Strip(s) == [] <==> forall k :: 0 <= k < |s| ==> IsSpace(s[k])
  {
    var left := StripLeft(s);
    var r := StripRight(left);
    var d := |s| - |left|;
    StripLeftRemovesSpace(s);
    StripRightRemovesSpace(left);
    if r == [] {
      assert left == [];
    } else {
      assert r[0] == s[d];
    }
  }

  lemma StripTrimmed(s: string)
    ensures Trimmed(s) ==> StripRight(StripLeft(s)) == s
  {
  }

  /** The pieces contain no separator character. */
  predicate NoSeparator(parts: seq<string>, isSep: char -> bool)
  {
    forall i, k :: 0 <= i < |parts| && 0 <= k < |parts[i]| ==> !isSep(parts[i][k])
  }

  /** Cuts `s` at every separator character, keeping empty pieces; Python's
      s.split("\n") when `isSep` is IsNewline. */
  function Split(s: string, isSep: char -> bool): (parts: seq<string>)
    ensures |parts| >= 1
    ensures NoSeparator(parts, isSep)
  {
    if s == [] then [[]]
    else
      var rest := Split(s[1..], isSep);
      if isSep(s[0]) then [[]] + rest else [[s[0]] + rest[0]] + rest[1..]
  }

  /** Python's sep.join(parts) for a one-character separator. */
  function Join(parts: seq<string>, sep: char): string
  {
    if |parts| == 0 then ""
    else if |parts| == 1 then parts[0]
    else parts[0] + [sep] + Join(parts[1..], sep)
  }

  /** The number of occurrences of `c` in `s`. */
  function Count(s: string, c: char): nat
  {
    if s == [] then 0 else (if s[0] == c then 1 else 0) + Count(s[1..], c)
  }

  /** Python's s.replace(target, replacement) for single characters. */
  function Replace(s: string, target: char, replacement: char): string
  {
    seq(|s|, k requires 0 <= k < |s| => if s[k] == target then replacement else s[k])
  }

  function LowerChar(c: char): char
  {
    if 'A' <= c <= 'Z' then (c as int + 32) as char else c
  }

  /** Python's str.lower(), on the ASCII letters (the only ones the extension tests look at). */
  function Lower(s: string): string
  {
    seq(|s|, k requires 0 <= k < |s| => LowerChar(s[k]))
  }

  /** Lowering commutes with taking the end of a string. */
  lemma LowerSuffix(s: string, i: nat)
    requires i <= |s|
    ensures Lower(s)[i..] == Lower(s[i..])
  {
  }

  /** Python's str.endswith(suffix). */
  predicate EndsWith(s: string, suffix: string)
  {
    |suffix| <= |s| && s[|s| - |suffix|..] == suffix
  }

  /** Splitting a string that has no separator gives the string back as the only piece. */
  lemma {:induction false} SplitNoSeparator(a: string, isSep: char -> bool)
    requires forall k :: 0 <= k < |a| ==> !isSep(a[k])
    ensures Split(a, isSep) == [a]
  {
    if a != [] {
      SplitNoSeparator(a[1..], isSep);
      assert [a[0]] + a[1..] == a;
    }
  }

  /** A separator-free piece followed by a separator is split off as one piece. */
  lemma {:induction false} SplitAtSeparator(a: string, sep: char, rest: string, isSep: char -> bool)
    requires isSep(sep)
    requires forall k :: 0 <= k < |a| ==> !isSep(a[k])
    ensures Split(a + [sep] + rest, isSep) == [a] + Split(rest, isSep)
  {
    if a == [] {
      assert a + [sep] + rest == [sep] + rest;
      assert ([sep] + rest)[1..] == rest;
    } else {
      assert (a + [sep] + rest)[1..] == a[1..] + [sep] + rest;
      SplitAtSeparator(a[1..], sep, rest, isSep);
      assert [a[0]] + a[1..] == a;
    }
  }

  /** Joining separator-free pieces and splitting again gives the pieces back. */
  lemma {:induction false} SplitJoin(parts: seq<string>, sep: char, isSep: char -> bool)
    requires |parts| >= 1 && isSep(sep) && NoSeparator(parts, isSep)
    ensures Split(Join(parts, sep), isSep) == parts
  {
    if |parts| == 1 {
      SplitNoSeparator(parts[0], isSep);
    } else {
      assert forall i, k :: 0 <= i < |parts| - 1 && 0 <= k < |parts[1..][i]| ==> parts[1..][i][k] == parts[i + 1][k];
      SplitJoin(parts[1..], sep, isSep);
      SplitAtSeparator(parts[0], sep, Join(parts[1..], sep), isSep);
      assert [parts[0]] + parts[1..] == parts;
    }
  }

  lemma {:induction false} CountConcat(a: string, b: string, c: char)
    ensures Count(a + b, c) == Count(a, c) + Count(b, c)
  {
    if a != [] {
      assert (a + b)[1..] == a[1..] + b;
      CountConcat(a[1..], b, c);
    } else {
      assert a + b == b;
    }
  }

  lemma {:induction false} CountAbsent(a: string, c: char)
    requires forall k :: 0 <= k < |a| ==> a[k] != c
    ensures Count(a, c) == 0
  {
    if a != [] {
      CountAbsent(a[1..], c);
    }
  }

  /** Joining n pieces that do not contain the separator puts exactly n - 1 separators in. */
  lemma {:induction false} JoinCount(parts: seq<string>, sep: char)
    requires |parts| >= 1
    requires forall i, k :: 0 <= i < |parts| && 0 <= k < |parts[i]| ==> parts[i][k] != sep
    ensures Count(Join(parts, sep), sep) == |parts| - 1
  {
    CountAbsent(parts[0], sep);
    if |parts| > 1 {
      assert forall i, k :: 0 <= i < |parts| - 1 && 0 <= k < |parts[1..][i]| ==> parts[1..][i][k] == parts[i + 1][k];
      JoinCount(parts[1..], sep);
      CountConcat(parts[0] + [sep], Join(parts[1..], sep), sep);
      CountConcat(parts[0], [sep], sep);
      assert [sep][1..] == [];
    }
  }

  /** The joined text starts with the first piece. */
  lemma {:induction false} JoinStartsWith(parts: seq<string>, sep: char)
    requires |parts| >= 1
    ensures |parts[0]| <= |Join(parts, sep)| && Join(parts, sep)[..|parts[0]|] == parts[0]
  {
    if |parts| > 1 {
      assert (parts[0] + [sep] + Join(parts[1..], sep))[..|parts[0]|] == parts[0];
    }
  }
}
