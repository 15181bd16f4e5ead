/** The few string operations of Python's `str` that the backend relies on:
    `strip()`, `lower()`, `split(d)[0]`, `split(d)[-1]` and `sep.join(parts)`.
    Whitespace and case are the ASCII subset of Python's Unicode rules: no
    character above \x7f is whitespace or a cased letter here. */
module TextOps {

  /** The ASCII characters `str.strip()` removes: space, the control
      characters \t, \n, \v, \f, \r, and the separators \x1c to \x1f. */
  predicate IsSpace(c: char) {
    c == ' ' || '\t' <= c <= '\r' || '\U{1C}' <= c <= '\U{1F}'
  }

  /** A string with no whitespace at either end. */
  predicate IsStripped(s: string) {
    s == [] || (!IsSpace(s[0]) && !IsSpace(s[|s| - 1]))
  }

  /** The first position at or after `i` that does not hold whitespace, or `|s|`. */
  function SkipSpaces(s: string, i: nat): (j: nat)
    requires i <= |s|
    ensures i <= j <= |s|
    ensures forall k :: i <= k < j ==> IsSpace(s[k])
    ensures j < |s| ==> !IsSpace(s[j])
    decreases |s| - i
  {
    if i < |s| && IsSpace(s[i]) then SkipSpaces(s, i + 1) else i
  }

  /** The end of `s[lo..j]` once its trailing whitespace is dropped. */
  function SkipSpacesBack(s: string, lo: nat, j: nat): (k: nat)
    requires lo <= j <= |s|
    ensures lo <= k <= j
    ensures forall m :: k <= m < j ==> IsSpace(s[m])
    ensures k > lo ==> !IsSpace(s[k - 1])
    decreases j
  {
    if j > lo && IsSpace(s[j - 1]) then SkipSpacesBack(s, lo, j - 1) else j
  }

  /** Python's `s.strip()`: the part of `s` between its leading and its
      trailing whitespace. */
  function Strip(s: string): (r: string)
    ensures IsStripped(r)
    ensures |r| <= |s|
  {
    var a := SkipSpaces(s, 0);
    s[a..SkipSpacesBack(s, a, |s|)]
  }

  /** `Strip` is characterised by where it cuts: whitespace only before `a`
      and from `b` on, and no whitespace at either end of `s[a..b]`. */
  lemma StripIs(s: string, a: nat, b: nat)
    requires a <= b <= |s|
    requires forall k :: 0 <= k < a ==> IsSpace(s[k])
    requires forall k :: b <= k < |s| ==> IsSpace(s[k])
    requires IsStripped(s[a..b])
    ensures Strip(s) == s[a..b]
  {
    var a' := SkipSpaces(s, 0);
    if a < b {
      assert s[a..b][0] == s[a] && s[a..b][b - a - 1] == s[b - 1];
      assert a' == a;
      assert SkipSpacesBack(s, a', |s|) == b;
    } else {
      assert a' == |s|;
    }
  }

  /** A stripped string is its own `strip()`. */
  lemma StripIdentity(s: string)
    requires IsStripped(s)
    ensures Strip(s) == s
  {
    assert s[0..|s|] == s;
    StripIs(s, 0, |s|);
  }

  /** Leading whitespace removed beforehand changes nothing. */
  lemma StripAfterSpaces(s: string, a: nat)
    requires a <= |s|
    requires forall k :: 0 <= k < a ==> IsSpace(s[k])
    ensures Strip(s[a..]) == Strip(s)
  {
    var t := s[a..];
    var a1 := SkipSpaces(t, 0);
    var b1 := SkipSpacesBack(t, a1, |t|);
    assert Strip(t) == t[a1..b1];
    assert t[a1..b1] == s[a + a1..a + b1];
    forall k | 0 <= k < a + a1
      ensures IsSpace(s[k])
    {
      if k >= a { assert s[k] == t[k - a]; }
    }
    forall k | a + b1 <= k < |s|
      ensures IsSpace(s[k])
    {
      assert s[k] == t[k - a];
    }
    StripIs(s, a + a1, a + b1);
  }

  /** ASCII lower-casing of one character. */
  function LowerChar(c: char): char {
    if 'A' <= c <= 'Z' then (c as int + 32) as char else c
  }

  /** Stripping introduces no character. */
  lemma StripKeepsAbsent(s: string, d: char)
    requires d !in s
    ensures d !in Strip(s)
  {
    var a := SkipSpaces(s, 0);
    SliceKeepsAbsent(s, d, a, SkipSpacesBack(s, a, |s|));
  }

  /** A slice holds no character its string does not hold. */
  lemma SliceKeepsAbsent(s: string, d: char, i: nat, j: nat)
    requires i <= j <= |s| && d !in s
    ensures d !in s[i..j]
  {
    forall k | 0 <= k < j - i
      ensures s[i..j][k] != d
    {
      assert s[i..j][k] == s[i + k];
    }
  }

  /** Stripping a stripped word padded with whitespace gives the word back. */
  lemma StripPadded(lead: string, word: string, trail: string)
    requires forall k :: 0 <= k < |lead| ==> IsSpace(lead[k])
    requires forall k :: 0 <= k < |trail| ==> IsSpace(trail[k])
    requires word != "" && IsStripped(word)
    ensures Strip(lead + word + trail) == word
  {
    var x := lead + word + trail;
    var b := |lead| + |word|;
    assert x[|lead|..b] == word;
    forall k | 0 <= k < |lead|
      ensures IsSpace(x[k])
    {
      assert x[k] == lead[k];
    }
    forall k | b <= k < |x|
      ensures IsSpace(x[k])
    {
      assert x[k] == trail[k - b];
    }
    StripIs(x, |lead|, b);
  }

  /** Python's `s.lower()`, on ASCII letters; `LowerCases` says what it does
      to each character. */
  function Lower(s: string): (r: string)
    ensures |r| == |s|
  {
    seq(|s|, i requires 0 <= i < |s| => LowerChar(s[i]))
  }

  /** Lower-casing leaves no upper-case letter: each one becomes its
      lower-case form, and every other character is kept. */
  lemma LowerCases(s: string)
    ensures forall i :: 0 <= i < |s| ==> !('A' <= Lower(s)[i] <= 'Z')
    ensures forall i :: 0 <= i < |s| && !('A' <= s[i] <= 'Z') ==> Lower(s)[i] == s[i]
    ensures forall i :: 0 <= i < |s| && 'A' <= s[i] <= 'Z' ==> 'a' <= Lower(s)[i] <= 'z' && Lower(s)[i] as int - s[i] as int == 32
  {
  }

  /** The first position at or after `i` holding `d`, or `|s|`. */
  function FindFrom(s: string, d: char, i: nat): (j: nat)
    requires i <= |s|
    ensures i <= j <= |s|
    ensures j < |s| ==> s[j] == d
    decreases |s| - i
  {
    if i == |s| || s[i] == d then i else FindFrom(s, d, i + 1)
  }

  /** `FindFrom` passes over no `d`: the first one it meets is the first one there is. */
  lemma {:induction false} FindFromSkips(s: string, d: char, i: nat)
    requires i <= |s|
    ensures forall k :: i <= k < FindFrom(s, d, i) ==> s[k] != d
    decreases |s| - i
  {
    if i < |s| && s[i] != d {
      FindFromSkips(s, d, i + 1);
    }
  }

  /** The position just after the last `d` in `s[..j]`, or 0. */
  function FindBackFrom(s: string, d: char, j: nat): (i: nat)
    requires j <= |s|
    ensures i <= j
    ensures i > 0 ==> s[i - 1] == d
    decreases j
  {
    if j == 0 || s[j - 1] == d then j else FindBackFrom(s, d, j - 1)
  }

  /** `FindBackFrom` passes over no `d` on its way back. */
  lemma {:induction false} FindBackFromSkips(s: string, d: char, j: nat)
    requires j <= |s|
    ensures forall k :: FindBackFrom(s, d, j) <= k < j ==> s[k] != d
    decreases j
  {
    if j > 0 && s[j - 1] != d {
      FindBackFromSkips(s, d, j - 1);
    }
  }

  /** Python's `s.split(d)[0]`: the part of `s` before the first `d`, or all of `s`. */
  function BeforeFirst(s: string, d: char): (r: string)
    ensures |r| <= |s| && r == s[..|r|]
    ensures |r| < |s| ==> s[|r|] == d
  {
    s[..FindFrom(s, d, 0)]
  }

  /** Python's `s.split(d)[-1]`: the part of `s` after the last `d`, or all of `s`. */
  function AfterLast(s: string, d: char): (r: string)
    ensures |r| <= |s|
    ensures |r| < |s| ==> s[|s| - |r| - 1] == d
  {
    s[FindBackFrom(s, d, |s|)..]
  }

  /** The part before the first `d` holds no `d`. */
  lemma BeforeFirstHasNo(s: string, d: char)
    ensures d !in BeforeFirst(s, d)
  {
    var j := FindFrom(s, d, 0);
    FindFromSkips(s, d, 0);
    forall k | 0 <= k < j
      ensures s[..j][k] != d
    {
      assert s[..j][k] == s[k];
    }
  }

  /** The part after the last `d` holds no `d`. */
  lemma AfterLastHasNo(s: string, d: char)
    ensures d !in AfterLast(s, d)
  {
    var i := FindBackFrom(s, d, |s|);
    FindBackFromSkips(s, d, |s|);
    forall k | 0 <= k < |s| - i
      ensures s[i..][k] != d
    {
      assert s[i..][k] == s[i + k];
    }
  }

  /** The part after the last `d` is a suffix of `s`. */
  lemma AfterLastSuffix(s: string, d: char)
    ensures AfterLast(s, d) == s[|s| - |AfterLast(s, d)|..]
  {
  }

  lemma BeforeFirstAbsent(s: string, d: char)
    requires d !in s
    ensures BeforeFirst(s, d) == s
  {
    FindFromSkips(s, d, 0);
    assert FindFrom(s, d, 0) == |s|;
    assert s[..|s|] == s;
  }

  lemma BeforeFirstAt(a: string, d: char, b: string)
    requires d !in a
    ensures BeforeFirst(a + [d] + b, d) == a
  {
    var x := a + [d] + b;
    assert x[|a|] == d;
    forall k | 0 <= k < |a|
      ensures x[k] != d
    {
      assert x[k] == a[k];
    }
    FindFromSkips(x, d, 0);
    assert FindFrom(x, d, 0) == |a|;
    assert x[..|a|] == a;
  }

  lemma AfterLastAt(a: string, d: char, b: string)
    requires d !in b
    ensures AfterLast(a + [d] + b, d) == b
  {
    var x := a + [d] + b;
    assert x[|a|] == d;
    forall k | |a| + 1 <= k < |x|
      ensures x[k] != d
    {
      assert x[k] == b[k - |a| - 1];
    }
    FindBackFromSkips(x, d, |x|);
    assert FindBackFrom(x, d, |x|) == |a| + 1;
    assert x[|a| + 1..] == b;
  }

  /** Where the middle of a three-part concatenation stands. */
  lemma Framed3(a: string, b: string, c: string)
    ensures |a + b + c| == |a| + |b| + |c|
    ensures (a + b + c)[..|a|] == a
    ensures (a + b + c)[|a|..|a| + |b|] == b
    ensures (a + b + c)[|a| + |b|..] == c
  {
    assert a + b + c == a + (b + c);
  }

  /** Where the third and fifth parts of a six-part concatenation stand, the
      shape of a prompt with two labelled slots. */
  lemma Framed6(a: string, b: string, c: string, d: string, e: string, f: string)
    ensures var r := a + b + c + d + e + f;
      && |r| == |a| + |b| + |c| + |d| + |e| + |f|
      && r[..|a|] == a
      && r[|a| + |b|..|a| + |b| + |c|] == c
      && r[|r| - |f| - |e|..|r| - |f|] == e
      && r[|r| - |f|..] == f
  {
    assert a + b + c + d + e + f == a + (b + (c + (d + (e + f))));
  }

  /** Python's `sep.join(parts)`: no parts give "", one part is itself, and
      `JoinLength` and `JoinPartAt` place every part and separator of more. */
  function Join(parts: seq<string>, sep: string): (r: string)
    ensures |parts| == 0 ==> r == ""
    ensures |parts| == 1 ==> r == parts[0]
    decreases |parts|
  {
    if |parts| == 0 then ""
    else if |parts| == 1 then parts[0]
    else parts[0] + sep + Join(parts[1..], sep)
  }

  /** Total length of the parts. */
  function SumLengths(parts: seq<string>): nat
    decreases |parts|
  {
    if parts == [] then 0 else |parts[0]| + SumLengths(parts[1..])
  }

  /** Where the `i`-th part starts in `Join(parts, sep)`: after the parts
      before it and one separator per part before it. */
  function PartOffset(parts: seq<string>, sep: string, i: nat): nat
    requires i <= |parts|
  {
    SumLengths(parts[..i]) + i * |sep|
  }

  /** Joining one more part adds one separator and the part, at the end. */
  lemma {:induction false} JoinSnoc(parts: seq<string>, sep: string, p: string)
    requires |parts| > 0
    ensures Join(parts + [p], sep) == Join(parts, sep) + sep + p
    decreases |parts|
  {
    if |parts| == 1 {
      assert parts + [p] == [parts[0], p];
      assert (parts + [p])[1..] == [p];
    } else {
      assert (parts + [p])[1..] == parts[1..] + [p];
      JoinSnoc(parts[1..], sep, p);
    }
  }

  /** `n >= 1` parts joined hold exactly `n - 1` separators besides the parts;
      no parts join to the empty string. */
  lemma {:induction false} JoinLength(parts: seq<string>, sep: string)
    ensures |parts| == 0 ==> Join(parts, sep) == ""
    ensures |parts| > 0 ==> |Join(parts, sep)| == SumLengths(parts) + (|parts| - 1) * |sep|
    decreases |parts|
  {
    if |parts| > 1 {
      JoinLength(parts[1..], sep);
      assert (|parts| - 1) * |sep| == (|parts| - 2) * |sep| + |sep|;
    }
  }

  lemma {:induction false} SumLengthsPrefix(parts: seq<string>, i: nat)
    requires 0 < i <= |parts|
    ensures SumLengths(parts[..i]) == |parts[0]| + SumLengths(parts[1..][..i - 1])
  {
    assert parts[..i][1..] == parts[1..][..i - 1];
  }

  /** The offset of part `i > 0` counts the first part and its separator,
      then the offset of part `i - 1` among the remaining parts. */
  lemma PartOffsetShift(parts: seq<string>, sep: string, i: nat)
    requires 0 < i <= |parts|
    ensures PartOffset(parts, sep, i) == |parts[0]| + |sep| + PartOffset(parts[1..], sep, i - 1)
  {
    SumLengthsPrefix(parts, i);
    assert i * |sep| == (i - 1) * |sep| + |sep|;
  }

  /** Part `i` stands in `Join(parts, sep)` at `PartOffset(parts, sep, i)`, and a
      separator follows every part but the last: the parts keep their order. */
  lemma {:induction false} JoinPartAt(parts: seq<string>, sep: string, i: nat)
    requires i < |parts|
    ensures PartOffset(parts, sep, i) + |parts[i]| <= |Join(parts, sep)|
    ensures Join(parts, sep)[PartOffset(parts, sep, i)..PartOffset(parts, sep, i) + |parts[i]|] == parts[i]
    ensures i + 1 < |parts| ==>
      PartOffset(parts, sep, i) + |parts[i]| + |sep| <= |Join(parts, sep)| &&
      Join(parts, sep)[PartOffset(parts, sep, i) + |parts[i]|..PartOffset(parts, sep, i) + |parts[i]| + |sep|] == sep
    decreases i
  {
    if i == 0 {
      assert parts[..0] == [];
      assert PartOffset(parts, sep, 0) == 0;
      if |parts| > 1 {
        assert Join(parts, sep) == parts[0] + sep + Join(parts[1..], sep);
      }
    } else {
      var tail := parts[1..];
      var head := parts[0] + sep;
      var rest := Join(tail, sep);
      JoinPartAt(tail, sep, i - 1);
      PartOffsetShift(parts, sep, i);
      var k := PartOffset(tail, sep, i - 1);
      assert Join(parts, sep) == head + rest;
      assert tail[i - 1] == parts[i];
      SliceAfter(head, rest, k, k + |parts[i]|);
      if i + 1 < |parts| {
        SliceAfter(head, rest, k + |parts[i]|, k + |parts[i]| + |sep|);
      }
    }
  }

  /** A slice of the second of two concatenated strings, by positions in the second. */
  lemma SliceAfter(a: string, b: string, x: nat, y: nat)
    requires x <= y <= |b|
    ensures (a + b)[|a| + x..|a| + y] == b[x..y]
  {
  }
}
