/**
 * String helpers with Python's semantics for the handful of `str` methods the
 * host code uses: `strip`, `startswith`, `split` (with and without a limit),
 * `upper` and `lower`. Case mapping and whitespace are ASCII only.
 */
module Text {

  /**
   * The characters Python's `str.strip()` removes, restricted to ASCII: space,
   * tab, line feed, vertical tab, form feed, carriage return, and the
   * file, group, record and unit separators 0x1C-0x1F.
   */
  predicate IsSpace(c: char) {
    c == ' ' || c == '\t' || c == '\n' || c == '\r' || c as int == 11 || c as int == 12 || 28 <= c as int <= 31
  }

  function TrimLeft(s: string): (r: string)
    ensures |r| <= |s| && r == s[|s| - |r|..]
    ensures r == [] || !IsSpace(r[0])
    ensures forall i :: 0 <= i < |s| - |r| ==> IsSpace(s[i])
  {
    if |s| > 0 && IsSpace(s[0]) then TrimLeft(s[1..]) else s
  }

  function TrimRight(s: string): (r: string)
    ensures |r| <= |s| && r == s[..|r|]
    ensures r == [] || !IsSpace(r[|r| - 1])
    ensures forall i :: |r| <= i < |s| ==> IsSpace(s[i])
  {
    if |s| > 0 && IsSpace(s[|s| - 1]) then TrimRight(s[..|s| - 1]) else s
  }

  /** Python's `s.strip()`: the longest slice with no surrounding whitespace. */
  function Strip(s: string): (r: string)
    ensures |r| <= |s|
    ensures r == [] || (!IsSpace(r[0]) && !IsSpace(r[|r| - 1]))
  {
    TrimRight(TrimLeft(s))
  }

  /** What is left after the trailing whitespace goes is a prefix of the left-trimmed string. */
  lemma TrimRightOfSuffix(s: string, k: nat)
    requires k <= |s|
    ensures var r := TrimRight(s[k..]);
      && k + |r| <= |s|
      && r == s[k..k + |r|]
      && (forall i :: k + |r| <= i < |s| ==> IsSpace(s[i]))
  {
    var l := s[k..];
    var r := TrimRight(l);
    assert r == l[..|r|];
    forall i | k + |r| <= i < |s| ensures IsSpace(s[i]) {
      assert s[i] == l[i - k];
    }
  }

  /** Strip removes only whitespace, and only at the two ends. */
  lemma StripSlice(s: string)
    ensures var r := Strip(s); var k := |s| - |TrimLeft(s)|;
      && k + |r| <= |s|
      && r == s[k..k + |r|]
      && (forall i :: 0 <= i < k ==> IsSpace(s[i]))
      && (forall i :: k + |r| <= i < |s| ==> IsSpace(s[i]))
  {
    var k := |s| - |TrimLeft(s)|;
    assert TrimLeft(s) == s[k..];
    assert Strip(s) == TrimRight(s[k..]);
    TrimRightOfSuffix(s, k);
  }

  /** Every non-whitespace character survives the strip. */
  lemma StripKeepsNonSpace(s: string)
    ensures forall i :: 0 <= i < |s| && !IsSpace(s[i]) ==> s[i] in Strip(s)
  {
    forall i | 0 <= i < |s| && !IsSpace(s[i]) ensures s[i] in Strip(s) {
      StripKeepsAt(s, i);
    }
  }

  /** The character at `i`, when not whitespace, is in the strip, `|s| - |TrimLeft(s)|` places earlier. */
  lemma StripKeepsAt(s: string, i: nat)
    requires i < |s| && !IsSpace(s[i])
    ensures var k := |s| - |TrimLeft(s)|;
            k <= i && i - k < |Strip(s)| && Strip(s)[i - k] == s[i] && s[i] in Strip(s)
  {
    var t := TrimLeft(s);
    var k := |s| - |t|;
    assert t == s[k..];
    assert k <= i by {
      if i < k { assert false; }
    }
    assert s[i] == t[i - k];
    TrimRightKeeps(t, i - k);
    var r := TrimRight(t);
    assert Strip(s) == r;
    assert r[i - k] == s[i];
  }

  /** A non-whitespace character survives the trailing trim, in place. */
  lemma TrimRightKeeps(t: string, j: nat)
    requires j < |t| && !IsSpace(t[j])
    ensures j < |TrimRight(t)| && TrimRight(t)[j] == t[j]
  {
  }

  /** A string with no surrounding whitespace is its own strip. */
  lemma StripOfStripped(s: string)
    requires s == [] || (!IsSpace(s[0]) && !IsSpace(s[|s| - 1]))
    ensures Strip(s) == s
  {
  }

  predicate StartsWith(s: string, prefix: string) {
    |prefix| <= |s| && s[..|prefix|] == prefix
  }

  /** Index of the first occurrence of `c` in `s`. */
  function IndexOf(s: string, c: char): (i: nat)
    requires c in s
    ensures i < |s| && s[i] == c && c !in s[..i]
  {
    if s[0] == c then 0 else 1 + IndexOf(s[1..], c)
  }

  /** `IndexOf` finds the first occurrence and no other. */
  lemma IndexOfUnique(s: string, c: char, k: nat)
    requires k < |s| && s[k] == c && c !in s[..k]
    ensures IndexOf(s, c) == k
  {
  }

  /** The parts joined back together with `sep` between them. */
  function Join(parts: seq<string>, sep: char): string
  {
    if |parts| == 0 then ""
    else if |parts| == 1 then parts[0]
    else parts[0] + [sep] + Join(parts[1..], sep)
  }

  /** Python's `s.split(sep)` for a one-character separator. */
  function Split(s: string, sep: char): (parts: seq<string>)
    ensures |parts| >= 1
    ensures forall i :: 0 <= i < |parts| ==> sep !in parts[i]
    ensures Join(parts, sep) == s
    decreases |s|
  {
    if sep !in s then [s]
    else
      var i := IndexOf(s, sep);
      var rest := Split(s[i + 1..], sep);
      assert s == s[..i] + [sep] + s[i + 1..];
      [s[..i]] + rest
  }

  /** Splitting a join of separator-free parts gives the parts back. */
  lemma {:induction false} SplitJoin(parts: seq<string>, sep: char)
    requires |parts| >= 1
    requires forall i :: 0 <= i < |parts| ==> sep !in parts[i]
    ensures Split(Join(parts, sep), sep) == parts
    decreases |parts|
  {
    if |parts| == 1 {
    } else {
      var tail := Join(parts[1..], sep);
      SplitHead(parts[0], tail, sep);
      SplitJoin(parts[1..], sep);
      assert parts == [parts[0]] + parts[1..];
    }
  }

  /** Splitting `head + sep + tail` cuts at the separator after `head`. */
  lemma SplitHead(head: string, tail: string, sep: char)
    requires sep !in head
    ensures Split(head + [sep] + tail, sep) == [head] + Split(tail, sep)
  {
    var s := head + [sep] + tail;
    assert s[..|head|] == head;
    IndexOfUnique(s, sep, |head|);
    assert s[|head| + 1..] == tail;
  }

  /** Python's `s.split(sep, maxsplit)`: at most `maxsplit` cuts, left to right. */
  function SplitN(s: string, sep: char, maxsplit: nat): (parts: seq<string>)
    ensures 1 <= |parts| <= maxsplit + 1
    ensures forall i :: 0 <= i < |parts| && (i < |parts| - 1 || |parts| <= maxsplit) ==> sep !in parts[i]
    ensures Join(parts, sep) == s
    decreases maxsplit
  {
    if maxsplit == 0 || sep !in s then [s]
    else
      var i := IndexOf(s, sep);
      CutAt(s, i);
      Cut(s[..i], sep, SplitN(s[i + 1..], sep, maxsplit - 1), maxsplit)
  }

  /** A string is the part before index `i`, the character there, and the part after. */
  lemma CutAt(s: string, i: nat)
    requires i < |s|
    ensures s == s[..i] + [s[i]] + s[i + 1..]
  {
  }

  /** The parts of `head + [sep] + tail`, given the parts `rest` of `tail` with one cut fewer. */
  function Cut(head: string, sep: char, rest: seq<string>, maxsplit: nat): (parts: seq<string>)
    requires sep !in head && maxsplit >= 1
    requires 1 <= |rest| <= maxsplit
    requires forall k :: 0 <= k < |rest| && (k < |rest| - 1 || |rest| <= maxsplit - 1) ==> sep !in rest[k]
    ensures 1 <= |parts| <= maxsplit + 1
    ensures forall k :: 0 <= k < |parts| && (k < |parts| - 1 || |parts| <= maxsplit) ==> sep !in parts[k]
    ensures Join(parts, sep) == head + [sep] + Join(rest, sep)
  {
    JoinCons(head, rest, sep);
    [head] + rest
  }

  /** Joining a head in front of non-empty parts puts one separator after the head. */
  lemma JoinCons(head: string, rest: seq<string>, sep: char)
    requires |rest| >= 1
    ensures Join([head] + rest, sep) == head + [sep] + Join(rest, sep)
  {
    assert ([head] + rest)[0] == head;
    assert ([head] + rest)[1..] == rest;
  }

  /** With cuts left, `head + sep + tail` is cut after `head` and the rest goes to the tail. */
  lemma SplitNHead(head: string, tail: string, sep: char, maxsplit: nat)
    requires sep !in head && maxsplit >= 1
    ensures SplitN(head + [sep] + tail, sep, maxsplit) == [head] + SplitN(tail, sep, maxsplit - 1)
  {
    var s := head + [sep] + tail;
    assert s[..|head|] == head;
    IndexOfUnique(s, sep, |head|);
    assert s[|head| + 1..] == tail;
  }

  /** With one cut, the second part is everything after the first separator. */
  lemma SplitOnceAfterPrefix(prefix: string, rest: string, sep: char)
    requires sep !in prefix
    ensures SplitN(prefix + [sep] + rest, sep, 1) == [prefix, rest]
  {
    var s := prefix + [sep] + rest;
    assert s[..|prefix|] == prefix;
    IndexOfUnique(s, sep, |prefix|);
    assert s[|prefix| + 1..] == rest;
  }

  function UpperChar(c: char): char {
    if 'a' <= c <= 'z' then (c as int - 32) as char else c
  }

  function LowerChar(c: char): char {
    if 'A' <= c <= 'Z' then (c as int + 32) as char else c
  }

  /** Python's `s.upper()` on ASCII letters. */
  function Upper(s: string): (r: string)
    ensures |r| == |s|
    ensures forall i :: 0 <= i < |s| ==> r[i] == UpperChar(s[i])
  {
    seq(|s|, i requires 0 <= i < |s| => UpperChar(s[i]))
  }

  /** Python's `s.lower()` on ASCII letters. */
  function Lower(s: string): (r: string)
    ensures |r| == |s|
    ensures forall i :: 0 <= i < |s| ==> r[i] == LowerChar(s[i])
  {
    seq(|s|, i requires 0 <= i < |s| => LowerChar(s[i]))
  }

  /** `upper()` leaves a string without lower-case letters as it is. */
  lemma UpperFixed(s: string)
    requires forall i :: 0 <= i < |s| ==> !('a' <= s[i] <= 'z')
    ensures Upper(s) == s
  {
    assert forall i :: 0 <= i < |s| ==> Upper(s)[i] == s[i];
  }

  /** `lower()` leaves a string without upper-case letters as it is. */
  lemma LowerFixed(s: string)
    requires forall i :: 0 <= i < |s| ==> !('A' <= s[i] <= 'Z')
    ensures Lower(s) == s
  {
    assert forall i :: 0 <= i < |s| ==> Lower(s)[i] == s[i];
  }

  /** Python's `c.isalnum()` on ASCII. */
  predicate IsAlnum(c: char) {
    ('a' <= c <= 'z') || ('A' <= c <= 'Z') || ('0' <= c <= '9')
  }
}
