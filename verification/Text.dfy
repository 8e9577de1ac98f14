/**
 The string operations the dashboard uses: trimming, searching, line splitting and ASCII case mapping.
 White space is the ECMA-262 WhiteSpace and LineTerminator set, which is what `String.prototype.trim` removes.
 */
module Text {

  predicate IsSpace(c: char) {
    var n := c as int;
    9 <= n <= 13 || n == 0x20 || n == 0xA0 || n == 0x1680 || 0x2000 <= n <= 0x200A || n == 0x2028
    || n == 0x2029 || n == 0x202F || n == 0x205F || n == 0x3000 || n == 0xFEFF
  }

  // ---- trimming ----

  function TrimStart(s: string): string {
    if s != "" && IsSpace(s[0]) then TrimStart(s[1..]) else s
  }

  function TrimEnd(s: string): string {
    if s != "" && IsSpace(s[|s| - 1]) then TrimEnd(s[..|s| - 1]) else s
  }

  function Trim(s: string): string {
    TrimEnd(TrimStart(s))
  }

  /** No white space at either end. */
  predicate Trimmed(s: string) {
    s != "" ==> !IsSpace(s[0]) && !IsSpace(s[|s| - 1])
  }

  predicate AllSpace(s: string) {
    forall k | 0 <= k < |s| :: IsSpace(s[k])
  }

  lemma {:induction false} TrimStartIsSuffix(s: string)
    ensures |TrimStart(s)| <= |s| && TrimStart(s) == s[|s| - |TrimStart(s)|..]
    ensures TrimStart(s) != "" ==> !IsSpace(TrimStart(s)[0])
  {
    if s != "" && IsSpace(s[0]) {
      TrimStartIsSuffix(s[1..]);
    }
  }

  lemma {:induction false} TrimEndIsPrefix(s: string)
    ensures |TrimEnd(s)| <= |s| && TrimEnd(s) == s[..|TrimEnd(s)|]
    ensures TrimEnd(s) != "" ==> !IsSpace(TrimEnd(s)[|TrimEnd(s)| - 1])
  {
    if s != "" && IsSpace(s[|s| - 1]) {
      TrimEndIsPrefix(s[..|s| - 1]);
    }
  }

  lemma TrimmedConcat(a: string, b: string)
    requires a != "" && !IsSpace(a[0]) && b != "" && !IsSpace(b[|b| - 1])
    ensures Trimmed(a + b)
  {
  }

  /** What trimming returns is a trimmed slice of its argument. */
  lemma TrimIsSlice(s: string) returns (from: nat)
    ensures Trimmed(Trim(s))
    ensures from + |Trim(s)| <= |s| && Trim(s) == s[from..from + |Trim(s)|]
  {
    TrimStartIsSuffix(s);
    TrimEndIsPrefix(TrimStart(s));
    from := |s| - |TrimStart(s)|;
  }

  lemma {:induction false} TrimStartSkips(pre: string, s: string)
    requires AllSpace(pre)
    ensures TrimStart(pre + s) == TrimStart(s)
  {
    if pre == "" {
      assert pre + s == s;
    } else {
      assert (pre + s)[1..] == pre[1..] + s;
      TrimStartSkips(pre[1..], s);
    }
  }

  lemma {:induction false} TrimStartKeeps(pre: string, s: string)
    requires s != "" && !IsSpace(s[0])
    ensures TrimStart(pre + s) == TrimStart(pre) + s
  {
    if pre == "" {
      assert pre + s == s;
    } else {
      assert (pre + s)[1..] == pre[1..] + s;
      TrimStartKeeps(pre[1..], s);
    }
  }

  lemma {:induction false} TrimEndSkips(s: string, post: string)
    requires AllSpace(post)
    ensures TrimEnd(s + post) == TrimEnd(s)
  {
    if post == "" {
      assert s + post == s;
    } else {
      assert (s + post)[..|s + post| - 1] == s + post[..|post| - 1];
      TrimEndSkips(s, post[..|post| - 1]);
    }
  }

  /** Trimming removes exactly the white space around a trimmed core. */
  lemma TrimAround(pre: string, core: string, post: string)
    requires AllSpace(pre) && AllSpace(post) && Trimmed(core)
    ensures Trim(pre + core + post) == core
  {
    assert pre + core + post == pre + (core + post);
    TrimStartSkips(pre, core + post);
    if core == "" {
      TrimStartSkips(post, "");
      assert core + post == post + "";
    } else {
      assert TrimStart(core + post) == core + post;
      TrimEndSkips(core, post);
    }
  }

  lemma TrimId(s: string)
    requires Trimmed(s)
    ensures Trim(s) == s
  {
    TrimAround("", s, "");
    assert "" + s + "" == s;
  }

  lemma TrimBlank()
    ensures Trim("") == ""
  {
  }

  // ---- searching ----

  predicate At(s: string, pat: string, k: int) {
    0 <= k && k + |pat| <= |s| && s[k..k + |pat|] == pat
  }

  predicate Contains(s: string, pat: string) {
    exists k | 0 <= k <= |s| :: At(s, pat, k)
  }

  /** `s.indexOf(pat, from)`: the first occurrence at or after `from`, or -1. */
  function IndexOf(s: string, pat: string, from: nat): (r: int)
    ensures -1 <= r && (r >= 0 ==> from <= r && r + |pat| <= |s|)
    decreases |s| - from
  {
    if from + |pat| > |s| then -1
    else if At(s, pat, from) then from
    else IndexOf(s, pat, from + 1)
  }

  lemma {:induction false} IndexOfIsFirst(s: string, pat: string, from: nat)
    ensures var r := IndexOf(s, pat, from);
            && (r >= 0 ==> At(s, pat, r))
            && (forall k | from <= k && (r >= 0 ==> k < r) :: !At(s, pat, k))
    decreases |s| - from
  {
    if from + |pat| <= |s| && !At(s, pat, from) {
      IndexOfIsFirst(s, pat, from + 1);
    }
  }

  predicate StartsWith(s: string, prefix: string) {
    prefix <= s
  }

  lemma SliceIndex(s: string, from: int, len: int, i: int)
    requires 0 <= from && 0 <= len && from + len <= |s|
    ensures 0 <= i < len ==> s[from..from + len][i] == s[from + i]
  {
  }

  lemma AtInSlice(s: string, a: nat, b: nat, pat: string, k: int)
    requires a <= b <= |s|
    requires At(s[a..b], pat, k)
    ensures At(s, pat, a + k)
  {
    assert s[a + k..a + k + |pat|] == pat by {
      assert forall i | 0 <= i < |pat| :: s[a + k..a + k + |pat|][i] == s[a..b][k + i] == pat[i];
    }
  }

  lemma ContainsInSlice(s: string, a: nat, b: nat, pat: string)
    requires a <= b <= |s|
    requires Contains(s[a..b], pat)
    ensures Contains(s, pat)
  {
    var k :| 0 <= k <= b - a && At(s[a..b], pat, k);
    AtInSlice(s, a, b, pat, k);
  }

  lemma NotAtWithoutFirst(s: string, pat: string, k: int)
    requires pat != "" && pat[0] !in s
    ensures !At(s, pat, k)
  {
    if 0 <= k && k + |pat| <= |s| {
      SliceIndex(s, k, |pat|, 0);
      assert s[k] in s;
    }
  }

  /** A pattern never straddles a character it does not contain. */
  lemma AtAroundSeparator(a: string, sep: char, b: string, pat: string, k: int)
    requires pat != "" && sep !in pat
    ensures At(a + [sep] + b, pat, k) <==> At(a, pat, k) || At(b, pat, k - |a| - 1)
  {
    var s := a + [sep] + b;
    if At(s, pat, k) {
      SliceIndex(s, k, |pat|, |a| - k);
      if k + |pat| <= |a| {
        assert a[k..k + |pat|] == s[k..k + |pat|];
      } else {
        assert b[k - |a| - 1..k - |a| - 1 + |pat|] == s[k..k + |pat|];
      }
    }
    if At(a, pat, k) {
      assert a[k..k + |pat|] == s[k..k + |pat|];
    }
    if At(b, pat, k - |a| - 1) {
      assert b[k - |a| - 1..k - |a| - 1 + |pat|] == s[k..k + |pat|];
    }
  }

  /** The search skips a first part that does not contain the pattern. */
  lemma IndexOfAfter(a: string, sep: char, b: string, pat: string)
    requires pat != "" && sep !in pat
    requires !Contains(a, pat)
    ensures IndexOf(a + [sep] + b, pat, 0)
            == if IndexOf(b, pat, 0) == -1 then -1 else |a| + 1 + IndexOf(b, pat, 0)
  {
    var s := a + [sep] + b;
    forall k ensures At(s, pat, k) <==> At(b, pat, k - |a| - 1) {
      AtAroundSeparator(a, sep, b, pat, k);
      assert At(a, pat, k) ==> Contains(a, pat);
    }
    IndexOfIsFirst(s, pat, 0);
    IndexOfIsFirst(b, pat, 0);
    var i, j := IndexOf(s, pat, 0), IndexOf(b, pat, 0);
    if i >= 0 { assert At(b, pat, i - |a| - 1); }
    if j >= 0 { assert At(s, pat, j + |a| + 1); }
  }

  /** The first occurrence of a character, or -1. */
  function IndexOfChar(s: string, c: char): (r: int)
    ensures -1 <= r < |s|
  {
    if s == "" then -1
    else if s[0] == c then 0
    else
      var r := IndexOfChar(s[1..], c);
      if r == -1 then -1 else r + 1
  }

  lemma {:induction false} IndexOfCharIsFirst(s: string, c: char)
    ensures IndexOfChar(s, c) == -1 ==> c !in s
    ensures IndexOfChar(s, c) >= 0 ==> s[IndexOfChar(s, c)] == c && c !in s[..IndexOfChar(s, c)]
  {
    if s != "" && s[0] != c {
      IndexOfCharIsFirst(s[1..], c);
      var r := IndexOfChar(s[1..], c);
      assert r >= 0 ==> s[..r + 1] == [s[0]] + s[1..][..r];
    }
  }

  lemma {:induction false} IndexOfCharAfter(a: string, c: char, b: string)
    requires c !in a
    ensures IndexOfChar(a + [c] + b, c) == |a|
  {
    if a == "" {
      assert a + [c] + b == [c] + b;
    } else {
      assert (a + [c] + b)[1..] == a[1..] + [c] + b;
      IndexOfCharAfter(a[1..], c, b);
    }
  }

  lemma {:induction false} IndexOfCharAbsent(s: string, c: char)
    requires c !in s
    ensures IndexOfChar(s, c) == -1
  {
    if s != "" {
      IndexOfCharAbsent(s[1..], c);
    }
  }

  // ---- lines ----

  /** `s.split("\n")`. */
  function SplitLines(s: string): (lines: seq<string>)
    ensures lines != []
    decreases |s|
  {
    var i := IndexOfChar(s, '\n');
    if i == -1 then [s] else [s[..i]] + SplitLines(s[i + 1..])
  }

  /** `lines.join("\n")`. */
  function JoinLines(lines: seq<string>): string {
    if lines == [] then ""
    else if |lines| == 1 then lines[0]
    else lines[0] + "\n" + JoinLines(lines[1..])
  }

  lemma SplitCons(a: string, b: string)
    requires '\n' !in a
    ensures SplitLines(a + "\n" + b) == [a] + SplitLines(b)
  {
    IndexOfCharAfter(a, '\n', b);
    assert (a + "\n" + b)[..|a|] == a;
    assert (a + "\n" + b)[|a| + 1..] == b;
  }

  lemma JoinCons(first: string, more: seq<string>, tail: string)
    requires more != []
    ensures JoinLines([first] + more) + "\n" + tail == first + "\n" + (JoinLines(more) + "\n" + tail)
  {
    assert ([first] + more)[1..] == more;
  }

  lemma SplitJoinedStep(text: string, first: string, rest: string, more: seq<string>, last: seq<string>)
    requires '\n' !in first
    requires text == first + "\n" + rest
    requires SplitLines(rest) == more + last
    ensures SplitLines(text) == [first] + more + last
  {
    SplitCons(first, rest);
    assert [first] + (more + last) == [first] + more + last;
  }

  /** Splitting is the inverse of joining: every joined line comes back as a line of its own. */
  lemma {:induction false} SplitJoined(lines: seq<string>, tail: string)
    requires lines != [] && forall i | 0 <= i < |lines| :: '\n' !in lines[i]
    ensures SplitLines(JoinLines(lines) + "\n" + tail) == lines + SplitLines(tail)
  {
    if |lines| == 1 {
      SplitCons(lines[0], tail);
    } else {
      var first, more := lines[0], lines[1..];
      assert lines == [first] + more;
      SplitJoined(more, tail);
      JoinCons(first, more, tail);
      SplitJoinedStep(JoinLines(lines) + "\n" + tail, first, JoinLines(more) + "\n" + tail, more, SplitLines(tail));
    }
  }

  /** Every line is a slice of the text and holds no line break. */
  lemma {:induction false} LineIsSlice(s: string, i: nat) returns (from: nat)
    requires i < |SplitLines(s)|
    ensures from + |SplitLines(s)[i]| <= |s| && SplitLines(s)[i] == s[from..from + |SplitLines(s)[i]|]
    ensures '\n' !in SplitLines(s)[i]
    decreases |s|
  {
    hide IndexOfChar;
    var nl := IndexOfChar(s, '\n');
    IndexOfCharIsFirst(s, '\n');
    if nl == -1 || i == 0 {
      from := 0;
    } else {
      var rest := LineIsSlice(s[nl + 1..], i - 1);
      from := nl + 1 + rest;
      assert SplitLines(s)[i] == SplitLines(s[nl + 1..])[i - 1];
    }
  }

  // ---- case ----

  function LowerChar(c: char): char {
    if 'A' <= c <= 'Z' then c - 'A' + 'a' else c
  }

  function UpperChar(c: char): char {
    if 'a' <= c <= 'z' then c - 'a' + 'A' else c
  }

  function Lower(s: string): (r: string)
    ensures |r| == |s| && forall k | 0 <= k < |s| :: r[k] == LowerChar(s[k])
  {
    seq(|s|, k requires 0 <= k < |s| => LowerChar(s[k]))
  }

  function Upper(s: string): (r: string)
    ensures |r| == |s| && forall k | 0 <= k < |s| :: r[k] == UpperChar(s[k])
  {
    seq(|s|, k requires 0 <= k < |s| => UpperChar(s[k]))
  }

  /** `parts.some((p) => s.includes(p))`. */
  predicate ContainsAny(s: string, parts: seq<string>) {
    exists i | 0 <= i < |parts| :: Contains(s, parts[i])
  }

  // ---- decimal digits ----

  predicate IsDigit(c: char) {
    '0' <= c <= '9'
  }

  predicate AllDigits(s: string) {
    forall k | 0 <= k < |s| :: IsDigit(s[k])
  }

  function DigitValue(c: char): (d: nat)
    requires IsDigit(c)
  {
    c as int - '0' as int
  }

  function DigitChar(d: nat): (c: char)
    requires d < 10
    ensures IsDigit(c) && DigitValue(c) == d
  {
    '0' + d as char
  }

  /** A natural number in decimal. */
  function Digits(n: nat): string {
    if n < 10 then [DigitChar(n)] else Digits(n / 10) + [DigitChar(n % 10)]
  }

  /** The white space of ECMA-262: tab to carriage return, the space separators, the line separators and the BOM. */
  lemma WhiteSpaceIs(c: char)
    ensures IsSpace(c)
            <==> c in "\t\n\U{0B}\U{0C}\r \U{A0}\U{1680}\U{2000}\U{2001}\U{2002}\U{2003}\U{2004}\U{2005}\U{2006}"
                 || c in "\U{2007}\U{2008}\U{2009}\U{200A}\U{2028}\U{2029}\U{202F}\U{205F}\U{3000}\U{FEFF}"
  {
    if IsSpace(c) { SpaceByCode(c); }
  }

  lemma SpaceByCode(c: char)
    requires IsSpace(c)
    ensures c in ['\t', '\n', '\U{0B}', '\U{0C}', '\r', ' ', '\U{A0}', '\U{1680}', '\U{2000}', '\U{2001}', '\U{2002}',
                  '\U{2003}', '\U{2004}', '\U{2005}', '\U{2006}', '\U{2007}', '\U{2008}', '\U{2009}', '\U{200A}',
                  '\U{2028}', '\U{2029}', '\U{202F}', '\U{205F}', '\U{3000}', '\U{FEFF}']
  {
    var n := c as int;
    assert n in [9, 10, 11, 12, 13, 0x20, 0xA0, 0x1680, 0x2000, 0x2001, 0x2002, 0x2003, 0x2004, 0x2005, 0x2006, 0x2007,
                 0x2008, 0x2009, 0x200A, 0x2028, 0x2029, 0x202F, 0x205F, 0x3000, 0xFEFF];
  }
}
