/** Python `str` operations the core relies on, with CPython's semantics. */
module PyStr {

  /** `c.isspace()` in CPython 3: the characters `str.strip()` removes when called
      without arguments (Unicode White_Space minus the zero-width ones). */
  predicate IsSpace(c: char) {
    || c == ' ' || c == '\t' || c == '\n' || c == '\r' || c == '\U{0B}' || c == '\U{0C}'
    || ('\U{1C}' <= c <= '\U{1F}')
    || c == '\U{85}' || c == '\U{A0}' || c == '\U{1680}'
    || ('\U{2000}' <= c <= '\U{200A}')
    || c == '\U{2028}' || c == '\U{2029}' || c == '\U{202F}' || c == '\U{205F}' || c == '\U{3000}'
  }

  /** A string `strip()` leaves unchanged: empty, or neither end is whitespace. */
  predicate IsStripped(s: string) {
    s == [] || (!IsSpace(s[0]) && !IsSpace(s[|s| - 1]))
  }

  predicate AllSpace(s: string) {
    forall i :: 0 <= i < |s| ==> IsSpace(s[i])
  }

  /** `s.lstrip()` */
  function LStrip(s: string): string {
    if |s| > 0 && IsSpace(s[0]) then LStrip(s[1..]) else s
  }

  /** `s.rstrip()` */
  function RStrip(s: string): string {
    if |s| > 0 && IsSpace(s[|s| - 1]) then RStrip(s[..|s| - 1]) else s
  }

  /** `lstrip` removes a prefix made only of whitespace, and stops at the first other character. */
  lemma {:induction false} LStripSpec(s: string)
    ensures |LStrip(s)| <= |s| && LStrip(s) == s[|s| - |LStrip(s)|..]
    ensures LStrip(s) == [] || !IsSpace(LStrip(s)[0])
    ensures AllSpace(s[..|s| - |LStrip(s)|])
    decreases |s|
  {
    if |s| > 0 && IsSpace(s[0]) {
      LStripSpec(s[1..]);
      var r := LStrip(s[1..]);
      assert s[1..][|s| - 1 - |r|..] == s[|s| - |r|..];
      assert s[..|s| - |r|] == [s[0]] + s[1..][..|s| - 1 - |r|];
    }
  }

  /** `rstrip` removes a suffix made only of whitespace, and stops at the last other character. */
  lemma {:induction false} RStripSpec(s: string)
    ensures |RStrip(s)| <= |s| && RStrip(s) == s[..|RStrip(s)|]
    ensures RStrip(s) == [] || !IsSpace(RStrip(s)[|RStrip(s)| - 1])
    ensures AllSpace(s[|RStrip(s)|..])
    decreases |s|
  {
    if |s| > 0 && IsSpace(s[|s| - 1]) {
      RStripSpec(s[..|s| - 1]);
      var r := RStrip(s[..|s| - 1]);
      assert s[..|s| - 1][..|r|] == s[..|r|];
      assert s[|r|..] == s[..|s| - 1][|r|..] + [s[|s| - 1]];
    }
  }

  /** `s.strip()` */
  function Strip(s: string): string {
    RStrip(LStrip(s))
  }

  /** Cutting `a` characters off the front of `s` and everything after the next `n` removes only
      whitespace. */
  predicate TrimmedAt(s: string, a: nat, n: nat) {
    a + n <= |s| && AllSpace(s[..a]) && AllSpace(s[a + n..])
  }

  /** The length of the leading whitespace `strip` removes. */
  function StripStart(s: string): nat {
    LStripSpec(s);
    |s| - |LStrip(s)|
  }

  /** `strip` gives the piece of `s` left once its whitespace-only ends are cut off, with no
      whitespace at either end: it is empty exactly when `s` is all whitespace, and it leaves an
      already stripped string unchanged. */
  lemma StripSpec(s: string)
    ensures IsStripped(Strip(s))
    ensures |Strip(s)| <= |s|
    ensures TrimmedAt(s, StripStart(s), |Strip(s)|)
    ensures Strip(s) == s[StripStart(s)..StripStart(s) + |Strip(s)|]
    ensures Strip(s) == [] <==> AllSpace(s)
    ensures IsStripped(s) ==> Strip(s) == s
  {
    var l := LStrip(s);
    var r := RStrip(l);
    LStripSpec(s);
    RStripSpec(l);
    var a := |s| - |l|;
    assert l[|r|..] == s[a + |r|..];
    assert r == s[a..a + |r|];
    if r == [] {
      assert AllSpace(l);
      assert s == s[..|s| - |l|] + l;
    }
    if r != [] {
      assert l[0] == r[0];
    }
    if IsStripped(s) && s != [] {
      assert l == s;
      assert r == l;
    }
  }

  /** `lstrip` of whitespace followed by text that does not start with whitespace is that text. */
  lemma {:induction false} LStripPadded(pre: string, rest: string)
    requires AllSpace(pre) && (rest == [] || !IsSpace(rest[0]))
    ensures LStrip(pre + rest) == rest
    decreases |pre|
  {
    if pre == [] {
      assert pre + rest == rest;
    } else {
      assert (pre + rest)[1..] == pre[1..] + rest;
      LStripPadded(pre[1..], rest);
    }
  }

  /** `rstrip` of text that does not end with whitespace followed by whitespace is that text. */
  lemma {:induction false} RStripPadded(rest: string, post: string)
    requires AllSpace(post) && (rest == [] || !IsSpace(rest[|rest| - 1]))
    ensures RStrip(rest + post) == rest
    decreases |post|
  {
    if post == [] {
      assert rest + post == rest;
    } else {
      assert (rest + post)[..|rest + post| - 1] == rest + post[..|post| - 1];
      RStripPadded(rest, post[..|post| - 1]);
    }
  }

  /** `strip` undoes any whitespace padding of a stripped string. */
  lemma StripPadded(pre: string, w: string, post: string)
    requires AllSpace(pre) && AllSpace(post) && IsStripped(w)
    ensures Strip(pre + w + post) == w
  {
    if w == [] {
      assert pre + w + post == (pre + post) + [];
      LStripPadded(pre + post, []);
    } else {
      assert pre + w + post == pre + (w + post);
      LStripPadded(pre, w + post);
      RStripPadded(w, post);
    }
  }

  /** `sep.join(parts)` */
  function Join(parts: seq<string>, sep: string): (r: string)
  {
    if |parts| == 0 then ""
    else if |parts| == 1 then parts[0]
    else parts[0] + sep + Join(parts[1..], sep)
  }

  lemma {:induction false} JoinEnds(parts: seq<string>, sep: string)
    requires |parts| > 0 && forall k :: 0 <= k < |parts| ==> parts[k] != []
    ensures |Join(parts, sep)| > 0
    ensures Join(parts, sep)[0] == parts[0][0]
    ensures Join(parts, sep)[|Join(parts, sep)| - 1] == parts[|parts| - 1][|parts[|parts| - 1]| - 1]
  {
    if |parts| > 1 {
      var tail := parts[1..];
      assert forall k :: 0 <= k < |tail| ==> tail[k] == parts[k + 1];
      JoinEnds(tail, sep);
      var j := Join(tail, sep);
      var r := parts[0] + sep + j;
      assert Join(parts, sep) == r;
      assert r[0] == parts[0][0];
      assert r[|r| - 1] == j[|j| - 1];
      assert tail[|tail| - 1] == parts[|parts| - 1];
    }
  }

  /** Joining non-empty stripped fragments with a single space gives a stripped string, so
      `" ".join(buffer).strip()` is the plain space-separated concatenation. */
  lemma JoinOfStrippedIsStripped(parts: seq<string>)
    requires forall k :: 0 <= k < |parts| ==> parts[k] != [] && IsStripped(parts[k])
    ensures Strip(Join(parts, " ")) == Join(parts, " ")
  {
    if |parts| > 0 {
      JoinEnds(parts, " ");
    }
    StripSpec(Join(parts, " "));
  }

  /** ASCII upper-casing of one character. */
  function UpperChar(c: char): char {
    if 'a' <= c <= 'z' then (c as int - 32) as char else c
  }

  /** Upper-casing turns no character into or out of whitespace, and leaves no lower-case
      ASCII letter. */
  lemma UpperCharSpace(c: char)
    ensures IsSpace(UpperChar(c)) <==> IsSpace(c)
    ensures !('a' <= UpperChar(c) <= 'z')
  {
    if 'a' <= c <= 'z' {
      assert 'A' <= UpperChar(c) <= 'Z';
    }
  }

  /** `s.upper()` restricted to ASCII letters. */
  function Upper(s: string): (r: string)
    ensures |r| == |s|
    ensures forall i :: 0 <= i < |s| ==> r[i] == UpperChar(s[i])
  {
    seq(|s|, i requires 0 <= i < |s| => UpperChar(s[i]))
  }

  /** `pat` occurs in `s` starting at index `i`. */
  predicate OccursAt(s: string, pat: string, i: int) {
    0 <= i && i + |pat| <= |s| && s[i..i + |pat|] == pat
  }

  /** `pat in s` */
  predicate Contains(s: string, pat: string) {
    exists i :: 0 <= i <= |s| - |pat| && OccursAt(s, pat, i)
  }

  /** An occurrence in `s[1..]` is an occurrence in `s` one position further on. */
  lemma OccursShift(s: string, pat: string, i: int)
    requires |s| > 0 && 1 <= i
    ensures OccursAt(s, pat, i) <==> OccursAt(s[1..], pat, i - 1)
  {
    if i + |pat| <= |s| {
      assert s[i..i + |pat|] == s[1..][i - 1..i - 1 + |pat|];
    }
  }

  /** The character `c` does not occur in `s`. */
  predicate Lacks(s: string, c: char) {
    forall i :: 0 <= i < |s| ==> s[i] != c
  }

  /** A string without the first character of `pat` does not contain `pat`. */
  lemma LacksFirst(s: string, pat: string)
    requires |pat| > 0 && Lacks(s, pat[0])
    ensures !Contains(s, pat)
  {
    forall i | 0 <= i <= |s| - |pat|
      ensures !OccursAt(s, pat, i)
    {
      assert s[i..i + |pat|][0] == s[i];
    }
  }

  /** `pat` is in neither `a` nor `b`, and cannot straddle the seam because one of the two
      characters beside it is not in `pat`: then it is not in `a + b`. */
  lemma NotContainsConcat(a: string, b: string, pat: string)
    requires |pat| > 0 && !Contains(a, pat) && !Contains(b, pat)
    requires a == [] || b == [] || Lacks(pat, a[|a| - 1]) || Lacks(pat, b[0])
    ensures !Contains(a + b, pat)
  {
    var s := a + b;
    forall i | 0 <= i <= |s| - |pat|
      ensures !OccursAt(s, pat, i)
    {
      if i + |pat| <= |a| {
        NotInLeft(a, b, pat, i);
      } else if i >= |a| {
        NotInRight(a, b, pat, i);
      } else {
        // the window holds both `a`'s last character and `b`'s first
        var w := s[i..i + |pat|];
        assert w[|a| - 1 - i] == a[|a| - 1];
        assert w[|a| - i] == b[0];
      }
    }
  }

  /** A window of `a + b` that lies inside `a` is a window of `a`. */
  lemma NotInLeft(a: string, b: string, pat: string, i: nat)
    requires !Contains(a, pat) && i + |pat| <= |a|
    ensures !OccursAt(a + b, pat, i)
  {
    assert (a + b)[i..i + |pat|] == a[i..i + |pat|];
    assert !OccursAt(a, pat, i);
  }

  /** A window of `a + b` that lies inside `b` is a window of `b`. */
  lemma NotInRight(a: string, b: string, pat: string, i: nat)
    requires !Contains(b, pat) && |a| <= i
    ensures !OccursAt(a + b, pat, i)
  {
    var j := i - |a|;
    if i + |pat| <= |a| + |b| {
      assert (a + b)[i..i + |pat|] == b[j..j + |pat|];
      assert !OccursAt(b, pat, j);
    }
  }

  /** `s.find(pat)`: scans for the first position at which `pat` occurs; -1 when none. */
  function Find(s: string, pat: string): (r: int)
    ensures -1 <= r <= |s|
    decreases |s|
  {
    if |pat| > |s| then -1
    else if s[..|pat|] == pat then 0
    else
      var k := Find(s[1..], pat);
      if k == -1 then -1 else k + 1
  }

  /** `find` gives the first index at which `pat` occurs, and -1 exactly when it does not
      occur. */
  lemma {:induction false} FindSpec(s: string, pat: string)
    ensures Find(s, pat) == -1 <==> !Contains(s, pat)
    ensures Find(s, pat) >= 0 ==> OccursAt(s, pat, Find(s, pat))
    ensures forall i :: 0 <= i < Find(s, pat) ==> !OccursAt(s, pat, i)
    decreases |s|
  {
    if |pat| > |s| {
    } else if s[..|pat|] == pat {
      assert OccursAt(s, pat, 0);
    } else {
      var k := Find(s[1..], pat);
      FindSpec(s[1..], pat);
      assert !OccursAt(s, pat, 0);
      forall i | 1 <= i
        ensures OccursAt(s, pat, i) <==> OccursAt(s[1..], pat, i - 1)
      {
        OccursShift(s, pat, i);
      }
      if k == -1 {
        forall i | 0 <= i <= |s| - |pat|
          ensures !OccursAt(s, pat, i)
        {
          if i >= 1 {
            assert !OccursAt(s[1..], pat, i - 1);
          }
        }
      } else {
        assert OccursAt(s, pat, k + 1);
      }
    }
  }

  /** An occurrence at `n` with none before it is what `find` returns. */
  lemma FindIs(s: string, pat: string, n: nat)
    requires OccursAt(s, pat, n)
    requires forall i :: 0 <= i < n ==> !OccursAt(s, pat, i)
    ensures Find(s, pat) == n
  {
    FindSpec(s, pat);
  }

  /** `s.startswith(p)` */
  predicate StartsWith(s: string, p: string) {
    |p| <= |s| && s[..|p|] == p
  }

  /** `s.replace(pat, rep)`: every non-overlapping occurrence of `pat`, scanning from the
      left, is replaced by `rep`. */
  function ReplaceAll(s: string, pat: string, rep: string): string
    requires |pat| > 0
    decreases |s|
  {
    if |s| < |pat| then s
    else if s[..|pat|] == pat then rep + ReplaceAll(s[|pat|..], pat, rep)
    else [s[0]] + ReplaceAll(s[1..], pat, rep)
  }
}
