/** The optional value of the model's datatypes. */
module Wrappers {

  datatype Option<+T> = None | Some(value: T)
}

/** The small pieces of Python string behaviour the interview script relies on:
    `str.strip()`, `str.lower()` followed by a substring test, and `str.join`. */
module Text {

  /** The characters for which Python's `str.isspace()` holds; these are what
      `str.strip()` with no argument removes from both ends. */
  predicate IsSpace(c: char) {
    || c == ' '
    || ('\t' <= c <= '\r')
    || ('\U{1C}' <= c <= '\U{1F}')
    || c == '\U{85}' || c == '\U{A0}' || c == '\U{1680}'
    || ('\U{2000}' <= c <= '\U{200A}')
    || c == '\U{2028}' || c == '\U{2029}' || c == '\U{202F}' || c == '\U{205F}' || c == '\U{3000}'
  }

  /** Every character of `s` is white space (the empty string included). */
  predicate Blank(s: string) {
    forall i :: 0 <= i < |s| ==> IsSpace(s[i])
  }

  /** Drops leading white space: the result is the longest suffix of `s` that
      does not start with white space. */
  function TrimStart(s: string): (r: string)
    ensures |r| <= |s| && r == s[|s| - |r|..]
    ensures r == [] || !IsSpace(r[0])
    ensures forall i :: 0 <= i < |s| - |r| ==> IsSpace(s[i])
  {
    if |s| > 0 && IsSpace(s[0]) then TrimStart(s[1..]) else s
  }

  /** Drops trailing white space: the result is the longest prefix of `s` that
      does not end with white space. */
  function TrimEnd(s: string): (r: string)
    ensures |r| <= |s| && r == s[..|r|]
    ensures r == [] || !IsSpace(r[|r| - 1])
    ensures forall i :: |r| <= i < |s| ==> IsSpace(s[i])
  {
    if |s| > 0 && IsSpace(s[|s| - 1]) then TrimEnd(s[..|s| - 1]) else s
  }

  /** Python's `s.strip()`. */
  function Strip(s: string): string {
    TrimEnd(TrimStart(s))
  }

  /** Cutting white space from the front of `s` (giving `t`) and then from
      the back of `t` (giving `r`) leaves a slice of `s` with white space only
      on either side. */
  lemma TrimmedSlice(s: string, t: string, r: string)
    requires |t| <= |s| && t == s[|s| - |t|..]
    requires forall k :: 0 <= k < |s| - |t| ==> IsSpace(s[k])
    requires |r| <= |t| && r == t[..|r|]
    requires forall k :: |r| <= k < |t| ==> IsSpace(t[k])
    requires t == [] || !IsSpace(t[0])
    requires r == [] || !IsSpace(r[|r| - 1])
    ensures exists i, j :: 0 <= i <= j <= |s| && r == s[i..j] && Blank(s[..i]) && Blank(s[j..])
    ensures r == [] || (!IsSpace(r[0]) && !IsSpace(r[|r| - 1]))
    ensures r == [] <==> Blank(s)
  {
    if r != [] {
      assert r[0] == t[0];
      assert r[|r| - 1] == s[|s| - |t| + |r| - 1];
    }
    var i := |s| - |t|;
    var j := i + |r|;
    assert r == s[i..j];
    var head := s[..i];
    forall k | 0 <= k < |head|
      ensures IsSpace(head[k])
    {
      assert head[k] == s[k];
    }
    var tail := s[j..];
    forall k | 0 <= k < |tail|
      ensures IsSpace(tail[k])
    {
      assert tail[k] == t[|r| + k];
    }
    assert Blank(s[..i]) && Blank(s[j..]);
  }

  /** `s.strip()` is a contiguous piece of `s` with only white space cut from
      either side, and it neither starts nor ends with white space. */
  lemma StripIsTrimmedSlice(s: string)
    ensures exists i, j :: 0 <= i <= j <= |s| && Strip(s) == s[i..j]
                           && Blank(s[..i]) && Blank(s[j..])
    ensures Strip(s) == [] || (!IsSpace(Strip(s)[0]) && !IsSpace(Strip(s)[|Strip(s)| - 1]))
  {
    TrimmedSlice(s, TrimStart(s), Strip(s));
  }

  /** The guard of the send button: `s.strip()` is empty exactly when `s`
      consists of white space only. */
  lemma StripEmptyIffBlank(s: string)
    ensures Strip(s) == [] <==> Blank(s)
  {
    TrimmedSlice(s, TrimStart(s), Strip(s));
  }

  /** Lower-cases the ASCII letters and keeps every other character. */
  function LowerChar(c: char): char {
    if 'A' <= c <= 'Z' then (c as int + 32) as char else c
  }

  /** `s.lower()`, restricted to the ASCII letters. */
  function Lower(s: string): (r: string)
    ensures |r| == |s|
    ensures forall i :: 0 <= i < |s| ==> r[i] == LowerChar(s[i])
  {
    seq(|s|, i requires 0 <= i < |s| => LowerChar(s[i]))
  }

  /** `p` occurs in `s` starting at index `i`. */
  predicate OccursAt(s: string, p: string, i: int) {
    0 <= i && i + |p| <= |s| && s[i..i + |p|] == p
  }

  /** Python's `p in s` on strings. */
  predicate Contains(s: string, p: string) {
    exists i :: 0 <= i <= |s| - |p| && OccursAt(s, p, i)
  }

  /** `word` (lower-case) occurs in `s` at `i` when every character there is
      either the lower-case or the upper-case form of the word's letter. */
  predicate OccursIgnoringCaseAt(s: string, lowerWord: string, upperWord: string, i: int)
    requires |lowerWord| == |upperWord|
  {
    && 0 <= i && i + |lowerWord| <= |s|
    && forall k :: 0 <= k < |lowerWord| ==> s[i + k] == lowerWord[k] || s[i + k] == upperWord[k]
  }

  /** The quota test of the error handler: `"quota" in s.lower()` holds exactly
      when some window of `s` spells q-u-o-t-a in any mix of cases. */
  lemma QuotaIgnoringCase(s: string)
    ensures Contains(Lower(s), "quota") <==> exists i :: 0 <= i <= |s| && OccursIgnoringCaseAt(s, "quota", "QUOTA", i)
  {
    var l := Lower(s);
    if Contains(l, "quota") {
      var i :| 0 <= i <= |l| - 5 && OccursAt(l, "quota", i);
      forall k | 0 <= k < 5
        ensures s[i + k] == "quota"[k] || s[i + k] == "QUOTA"[k]
      {
        assert l[i..i + 5][k] == l[i + k];
      }
      assert OccursIgnoringCaseAt(s, "quota", "QUOTA", i);
    }
    if exists i :: 0 <= i <= |s| && OccursIgnoringCaseAt(s, "quota", "QUOTA", i) {
      var i :| 0 <= i <= |s| && OccursIgnoringCaseAt(s, "quota", "QUOTA", i);
      assert l[i..i + 5] == "quota" by {
        forall k | 0 <= k < 5
          ensures l[i..i + 5][k] == "quota"[k]
        {
          assert s[i + k] == "quota"[k] || s[i + k] == "QUOTA"[k];
        }
      }
      assert OccursAt(l, "quota", i);
    }
  }

  /** `p` is a prefix of `s`. */
  predicate StartsWith(s: string, p: string) {
    |p| <= |s| && s[..|p|] == p
  }

  /** `p` is a suffix of `s`. */
  predicate EndsWith(s: string, p: string) {
    |p| <= |s| && s[|s| - |p|..] == p
  }

  /** In the text `a + f + b` the head `a` comes first, the tail `b` comes
      last, and whatever is found in `f` is found. */
  lemma Framed(a: string, f: string, b: string)
    ensures StartsWith(a + f + b, a) && EndsWith(a + f + b, b)
    ensures forall q :: Contains(f, q) ==> Contains(a + f + b, q)
  {
    var p := a + f + b;
    assert p[..|a|] == a;
    assert p[|p| - |b|..] == b;
    forall q | Contains(f, q)
      ensures Contains(p, q)
    {
      ContainsAfter(a, f, q);
      ContainsBefore(a + f, b, q);
    }
  }

  /** A text found in `b` is still found once `a` is put in front of it. */
  lemma ContainsAfter(a: string, b: string, p: string)
    requires Contains(b, p)
    ensures Contains(a + b, p)
  {
    var i :| 0 <= i <= |b| - |p| && OccursAt(b, p, i);
    assert (a + b)[|a| + i..|a| + i + |p|] == b[i..i + |p|];
    assert OccursAt(a + b, p, |a| + i);
  }

  /** A text found in `a` is still found once `b` is put after it. */
  lemma ContainsBefore(a: string, b: string, p: string)
    requires Contains(a, p)
    ensures Contains(a + b, p)
  {
    var i :| 0 <= i <= |a| - |p| && OccursAt(a, p, i);
    assert (a + b)[i..i + |p|] == a[i..i + |p|];
    assert OccursAt(a + b, p, i);
  }

  /** `inner` occurs in `prefix + inner + suffix`. */
  lemma ContainsMiddle(prefix: string, inner: string, suffix: string)
    ensures Contains(prefix + inner + suffix, inner)
  {
    var s := prefix + inner + suffix;
    assert s[|prefix|..|prefix| + |inner|] == inner;
    assert OccursAt(s, inner, |prefix|);
  }

  /** In the text `a + l1 + x + l2 + y + f` the head `a` comes first, `x` and
      `y` are found, whatever is found in `f` is found, and with `f` empty the
      text ends with `y`. */
  lemma Fields(a: string, l1: string, x: string, l2: string, y: string, f: string)
    ensures var p := a + l1 + x + l2 + y + f;
            && StartsWith(p, a) && Contains(p, x) && Contains(p, y)
            && (forall q :: Contains(f, q) ==> Contains(p, q))
            && (f == [] ==> p[|p| - |y|..] == y)
  {
    var p := a + l1 + x + l2 + y + f;
    assert p[..|a|] == a;
    assert p == (a + l1) + x + (l2 + y + f);
    ContainsMiddle(a + l1, x, l2 + y + f);
    ContainsMiddle(a + l1 + x + l2, y, f);
    forall q | Contains(f, q)
      ensures Contains(p, q)
    {
      ContainsAfter(a + l1 + x + l2 + y, f, q);
    }
  }

  /** Every string contains itself. */
  lemma ContainsSelf(s: string)
    ensures Contains(s, s)
  {
    assert s[0..|s|] == s;
    assert OccursAt(s, s, 0);
  }

  /** Python's `sep.join(parts)`. */
  function Join(parts: seq<string>, sep: string): string {
    if |parts| == 0 then ""
    else if |parts| == 1 then parts[0]
    else parts[0] + sep + Join(parts[1..], sep)
  }

  /** Joining one more part appends the separator and that part. */
  lemma {:induction false} JoinSnoc(parts: seq<string>, x: string, sep: string)
    requires |parts| > 0
    ensures Join(parts + [x], sep) == Join(parts, sep) + sep + x
  {
    if |parts| == 1 {
    } else {
      assert (parts + [x])[1..] == parts[1..] + [x];
      JoinSnoc(parts[1..], x, sep);
    }
  }

  /** Every part can be found in the joined text. */
  lemma {:induction false} JoinContainsParts(parts: seq<string>, sep: string)
    ensures forall k :: 0 <= k < |parts| ==> Contains(Join(parts, sep), parts[k])
  {
    if |parts| == 1 {
      ContainsSelf(parts[0]);
    } else if |parts| > 1 {
      var rest := Join(parts[1..], sep);
      JoinContainsParts(parts[1..], sep);
      forall k | 0 <= k < |parts|
        ensures Contains(Join(parts, sep), parts[k])
      {
        if k == 0 {
          ContainsSelf(parts[0]);
          ContainsBefore(parts[0], sep + rest, parts[0]);
          assert Join(parts, sep) == parts[0] + (sep + rest);
        } else {
          assert parts[1..][k - 1] == parts[k];
          ContainsAfter(parts[0] + sep, rest, parts[k]);
        }
      }
    }
  }

  /** Total length of the parts plus one separator between each neighbouring pair. */
  function TotalLength(parts: seq<string>): nat {
    if |parts| == 0 then 0 else |parts[0]| + TotalLength(parts[1..])
  }

  /** The joined text holds every part and one separator per gap, nothing else. */
  lemma {:induction false} JoinLength(parts: seq<string>, sep: string)
    requires |parts| > 0
    ensures |Join(parts, sep)| == TotalLength(parts) + (|parts| - 1) * |sep|
  {
    if |parts| > 1 {
      JoinLength(parts[1..], sep);
    }
  }

  /** The first part opens the joined text, followed by the separator when more come. */
  lemma JoinStartsWithFirst(parts: seq<string>, sep: string)
    requires |parts| > 0
    ensures |parts[0]| <= |Join(parts, sep)| && Join(parts, sep)[..|parts[0]|] == parts[0]
    ensures |parts| > 1 ==> OccursAt(Join(parts, sep), sep, |parts[0]|)
  {
    var j := Join(parts, sep);
    if |parts| > 1 {
      assert j == parts[0] + sep + Join(parts[1..], sep);
      assert j[|parts[0]|..|parts[0]| + |sep|] == sep;
    }
  }
}
