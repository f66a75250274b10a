/** The Python built-ins the core relies on, over `string = seq<char>` and
    `seq`: whitespace, `strip`, `split`, `join`, `startswith`, `find`,
    `rfind`, slicing, `list.index`, `str(int)` and the character classes.
    `IsSpace` is exactly the set of characters for which `str.isspace()` is
    true; the cased-letter and digit classes cover ASCII, Latin-1 and the
    fullwidth forms only. */
module Builtins {
  import opened Wrappers

  // ---------------------------------------------------------------- characters

  /** `c.isspace()`: the separators of `str.split()` and `str.strip()`. */
  predicate IsSpace(c: char) {
    || ('\U{9}' <= c <= '\U{d}')
    || ('\U{1c}' <= c <= '\U{20}')
    || c == '\U{85}' || c == '\U{a0}' || c == '\U{1680}'
    || ('\U{2000}' <= c <= '\U{200a}')
    || c == '\U{2028}' || c == '\U{2029}' || c == '\U{202f}' || c == '\U{205f}'
    || c == '\U{3000}'
  }

  /** Uppercase letters (`c.isupper()`): ASCII, Latin-1 and fullwidth. */
  predicate IsUpperChar(c: char) {
    || ('A' <= c <= 'Z')
    || ('\U{c0}' <= c <= '\U{de}' && c != '\U{d7}')
    || ('\U{ff21}' <= c <= '\U{ff3a}')
  }

  /** Lowercase letters (`c.islower()`): ASCII, Latin-1 (with the
      ordinal indicators and the micro sign) and fullwidth. */
  predicate IsLowerChar(c: char) {
    || ('a' <= c <= 'z')
    || c == '\U{aa}' || c == '\U{b5}' || c == '\U{ba}'
    || ('\U{df}' <= c <= '\U{ff}' && c != '\U{f7}')
    || ('\U{ff41}' <= c <= '\U{ff5a}')
  }

  /** `c.isdigit()`: ASCII and fullwidth digits. */
  predicate IsDigitChar(c: char) {
    ('0' <= c <= '9') || ('\U{ff10}' <= c <= '\U{ff19}')
  }

  /** `s.isupper()`: at least one cased character and no lowercase one. */
  predicate StrIsUpper(s: string) {
    (exists i :: 0 <= i < |s| && IsUpperChar(s[i])) && (forall i :: 0 <= i < |s| ==> !IsLowerChar(s[i]))
  }

  /** `str.lower()` on one character: the uppercase letters `IsUpperChar`
      recognises all sit 32 code points below their lowercase forms. */
  function LowerChar(c: char): (l: char)
    ensures !IsUpperChar(l)
    ensures IsUpperChar(c) ==> IsLowerChar(l)
    ensures !IsUpperChar(c) ==> l == c
  {
    if IsUpperChar(c) then (c as int + 32) as char else c
  }

  /** `s.lower()`. */
  function Lower(s: string): (r: string)
    ensures |r| == |s|
    ensures forall i :: 0 <= i < |s| ==> r[i] == LowerChar(s[i])
  {
    seq(|s|, i requires 0 <= i < |s| => LowerChar(s[i]))
  }

  /** `not s.strip()`: the string is empty or only whitespace. */
  predicate IsBlank(s: string) {
    forall i :: 0 <= i < |s| ==> IsSpace(s[i])
  }

  // ---------------------------------------------------------------- strip

  /** `s.lstrip()`: the suffix of `s` after its leading whitespace. */
  function LStrip(s: string): (r: string)
    ensures |r| <= |s|
  {
    if s != [] && IsSpace(s[0]) then LStrip(s[1..]) else s
  }

  /** `lstrip` keeps a suffix that does not start with whitespace, and what
      it removes is whitespace. */
  lemma {:induction false} LStripSpec(s: string)
    ensures var r := LStrip(s);
      r == s[|s| - |r|..] && (r == [] || !IsSpace(r[0])) && IsBlank(s[..|s| - |r|])
  {
    if s != [] && IsSpace(s[0]) {
      LStripSpec(s[1..]);
      assert s[..|s| - |LStrip(s)|] == [s[0]] + s[1..][..|s[1..]| - |LStrip(s[1..])|];
    }
  }

  /** `s.rstrip()`: the prefix of `s` before its trailing whitespace. */
  function RStrip(s: string): (r: string)
    ensures |r| <= |s|
  {
    if s != [] && IsSpace(s[|s| - 1]) then RStrip(s[..|s| - 1]) else s
  }

  /** `rstrip` keeps a prefix that does not end with whitespace, and what it
      removes is whitespace. */
  lemma {:induction false} RStripSpec(s: string)
    ensures var r := RStrip(s);
      r == s[..|r|] && (r == [] || !IsSpace(r[|r| - 1])) && IsBlank(s[|r|..])
  {
    if s != [] && IsSpace(s[|s| - 1]) {
      var init := s[..|s| - 1];
      RStripSpec(init);
      assert s[|RStrip(s)|..] == init[|RStrip(init)|..] + [s[|s| - 1]];
    }
  }

  /** `s.strip()`. */
  function Strip(s: string): string {
    RStrip(LStrip(s))
  }

  /** Stripping leaves an infix of `s`, starting where `lstrip` stopped. */
  lemma StripInfix(s: string)
    ensures var r := Strip(s);
      var k := |s| - |LStrip(s)|;
      k + |r| <= |s| && r == s[k..k + |r|]
  {
    var l := LStrip(s);
    var k := |s| - |l|;
    LStripSpec(s);
    RStripSpec(l);
    assert l == s[k..];
    assert l[..|RStrip(l)|] == s[k..k + |RStrip(l)|];
  }

  /** Only whitespace is removed, on either side. */
  lemma StripRemovesBlank(s: string)
    ensures var r := Strip(s);
      var k := |s| - |LStrip(s)|;
      k + |r| <= |s| && IsBlank(s[..k]) && IsBlank(s[k + |r|..])
  {
    var l := LStrip(s);
    var k := |s| - |l|;
    LStripSpec(s);
    RStripSpec(l);
    assert s[k + |RStrip(l)|..] == l[|RStrip(l)|..];
  }

  /** The result has no whitespace at either end. */
  lemma StripEnds(s: string)
    ensures var r := Strip(s);
      r == [] || (!IsSpace(r[0]) && !IsSpace(r[|r| - 1]))
  {
    var l := LStrip(s);
    var r := RStrip(l);
    LStripSpec(s);
    RStripSpec(l);
    if r != [] {
      assert r[0] == l[0];
    }
  }

  /** A string strips to nothing exactly when it is blank. */
  lemma StripEmptyIffBlank(s: string)
    ensures Strip(s) == [] <==> IsBlank(s)
  {
    var l := LStrip(s);
    var k := |s| - |l|;
    LStripSpec(s);
    RStripSpec(l);
    // A non-empty `l` starts with the non-space character `s[k]`.
    assert l == [] || (l[0] == s[k] && l[0..] == l);
    if Strip(s) == [] {
      assert s[..k] == s;
    }
  }

  /** Stripping twice is stripping once. */
  lemma StripIdempotent(s: string)
    ensures Strip(Strip(s)) == Strip(s)
  {
    var r := Strip(s);
    StripEnds(s);
    assert LStrip(r) == r;
    assert RStrip(r) == r;
  }

  // ---------------------------------------------------------------- split / join

  /** `sep.join(parts)`. */
  function Join(sep: string, parts: seq<string>): string {
    if |parts| == 0 then ""
    else if |parts| == 1 then parts[0]
    else parts[0] + sep + Join(sep, parts[1..])
  }

  /** `s.split(sep)` for a one-character separator: the pieces between the
      separators, always at least one, none containing `sep`. */
  function Split(s: string, sep: char): (parts: seq<string>)
    ensures |parts| >= 1
    ensures forall i :: 0 <= i < |parts| ==> sep !in parts[i]
  {
    if s == [] then [""]
    else
      var rest := Split(s[1..], sep);
      if s[0] == sep then [""] + rest
      else [[s[0]] + rest[0]] + rest[1..]
  }

  /** Joining the pieces of a split with the separator gives the string back. */
  lemma {:induction false} JoinSplit(s: string, sep: char)
    ensures Join([sep], Split(s, sep)) == s
  {
    if s != [] {
      var rest := Split(s[1..], sep);
      JoinSplit(s[1..], sep);
      if s[0] == sep {
        assert Split(s, sep) == [""] + rest;
        assert ([""] + rest)[1..] == rest;
      } else {
        var parts := Split(s, sep);
        assert parts[1..] == rest[1..];
        assert parts[0] == [s[0]] + rest[0];
        if |rest| > 1 {
          assert Join([sep], rest) == rest[0] + [sep] + Join([sep], rest[1..]);
        }
      }
    }
  }

  /** The first piece of a split is the prefix of `s` up to the first
      separator (all of `s` when there is none). */
  lemma {:induction false} SplitFirst(s: string, sep: char)
    ensures var f := Split(s, sep)[0];
      |f| <= |s| && f == s[..|f|] && (|f| == |s| || s[|f|] == sep)
  {
    if s != [] && s[0] != sep {
      SplitFirst(s[1..], sep);
    }
  }

  /** Joining one more part adds the separator and the part at the end. */
  lemma {:induction false} JoinSnoc(sep: string, parts: seq<string>, x: string)
    requires parts != []
    ensures Join(sep, parts + [x]) == Join(sep, parts) + sep + x
  {
    if |parts| > 1 {
      assert (parts + [x])[1..] == parts[1..] + [x];
      JoinSnoc(sep, parts[1..], x);
    } else {
      assert (parts + [x])[1..] == [x];
    }
  }

  lemma {:induction false} SplitNoSeparator(a: string, sep: char)
    requires sep !in a
    ensures Split(a, sep) == [a]
  {
    if a != [] {
      assert a[0] in a && [a[0]] + a[1..] == a;
      SplitNoSeparator(a[1..], sep);
    }
  }

  lemma {:induction false} SplitAtSeparator(a: string, rest: string, sep: char)
    requires sep !in a
    ensures Split(a + [sep] + rest, sep) == [a] + Split(rest, sep)
  {
    var s := a + [sep] + rest;
    if a == [] {
      assert s[1..] == rest;
    } else {
      assert s[0] == a[0] && a[0] in a && [a[0]] + a[1..] == a;
      assert s[1..] == a[1..] + [sep] + rest;
      SplitAtSeparator(a[1..], rest, sep);
    }
  }

  /** Splitting a join gives the parts back when no part holds the separator:
      the inverse of `JoinSplit`. */
  lemma {:induction false} SplitJoin(parts: seq<string>, sep: char)
    requires parts != []
    requires forall k :: 0 <= k < |parts| ==> sep !in parts[k]
    ensures Split(Join([sep], parts), sep) == parts
  {
    if |parts| == 1 {
      SplitNoSeparator(parts[0], sep);
    } else {
      var rest := parts[1..];
      assert forall k :: 0 <= k < |rest| ==> sep !in rest[k] by {
        forall k | 0 <= k < |rest| ensures sep !in rest[k] {
          assert rest[k] == parts[k + 1];
        }
      }
      SplitJoin(rest, sep);
      assert Join([sep], parts) == parts[0] + [sep] + Join([sep], rest);
      SplitAtSeparator(parts[0], Join([sep], rest), sep);
      assert [parts[0]] + rest == parts;
    }
  }

  /** Stripping removes characters and adds none. */
  lemma StripKeepsOut(s: string, c: char)
    requires c !in s
    ensures c !in Strip(s)
  {
    StripInfix(s);
  }

  /** Removes the whitespace of `s`, keeping the other characters in order. */
  function NonSpace(s: string): string {
    if s == [] then [] else (if IsSpace(s[0]) then [] else [s[0]]) + NonSpace(s[1..])
  }

  /** The pieces one after another (`"".join(words)`, `sum(lists, [])`). */
  function Concat<T>(xss: seq<seq<T>>): seq<T> {
    if xss == [] then [] else xss[0] + Concat(xss[1..])
  }

  lemma {:induction false} ConcatAppend<T>(xss: seq<seq<T>>, yss: seq<seq<T>>)
    ensures Concat(xss + yss) == Concat(xss) + Concat(yss)
  {
    if xss != [] {
      assert (xss + yss)[0] == xss[0];
      assert (xss + yss)[1..] == xss[1..] + yss;
      ConcatAppend(xss[1..], yss);
    } else {
      assert xss + yss == yss;
    }
  }

  /** Extending the last list extends the concatenation by the same element. */
  lemma {:induction false} ConcatExtendLast<T>(xss: seq<seq<T>>, x: T)
    requires xss != []
    ensures Concat(xss[..|xss| - 1] + [xss[|xss| - 1] + [x]]) == Concat(xss) + [x]
  {
    var front, last := xss[..|xss| - 1], xss[|xss| - 1];
    assert xss == front + [last];
    calc {
      Concat(front + [last + [x]]);
    ==  { ConcatAppend(front, [last + [x]]); }
      Concat(front) + Concat([last + [x]]);
    ==  { ConcatSingle(last + [x]); }
      Concat(front) + (last + [x]);
    ==
      (Concat(front) + last) + [x];
    ==  { ConcatSingle(last); }
      (Concat(front) + Concat([last])) + [x];
    ==  { ConcatAppend(front, [last]); }
      Concat(xss) + [x];
    }
  }

  /** One more list at the end adds its elements at the end. */
  lemma {:induction false} ConcatSnoc<T>(xss: seq<seq<T>>, xs: seq<T>)
    ensures Concat(xss + [xs]) == Concat(xss) + xs
  {
    ConcatAppend(xss, [xs]);
    ConcatSingle(xs);
  }

  /** A non-empty sequence is its front followed by its last element. */
  lemma FrontLast<T>(s: seq<T>)
    requires s != []
    ensures s == s[..|s| - 1] + [s[|s| - 1]]
  {
  }

  lemma ConcatSingle<T>(xs: seq<T>)
    ensures Concat([xs]) == xs
  {
    assert [xs][1..] == [];
  }

  lemma {:induction false} NonSpaceAppend(a: string, b: string)
    ensures NonSpace(a + b) == NonSpace(a) + NonSpace(b)
  {
    if a != [] {
      assert (a + b)[0] == a[0];
      assert (a + b)[1..] == a[1..] + b;
      NonSpaceAppend(a[1..], b);
    } else {
      assert a + b == b;
    }
  }

  lemma {:induction false} NonSpaceOfBlank(s: string)
    requires IsBlank(s)
    ensures NonSpace(s) == []
  {
    if s != [] {
      NonSpaceOfBlank(s[1..]);
    }
  }

  lemma {:induction false} NonSpaceOfWord(s: string)
    requires forall i :: 0 <= i < |s| ==> !IsSpace(s[i])
    ensures NonSpace(s) == s
  {
    if s != [] {
      NonSpaceOfWord(s[1..]);
    }
  }

  /** Length of the run of non-whitespace characters that starts `s`. */
  function WordLength(s: string): (n: nat)
    ensures n <= |s|
  {
    if s == [] || IsSpace(s[0]) then 0 else 1 + WordLength(s[1..])
  }

  /** The run is free of whitespace and ends at whitespace or at the end. */
  lemma {:induction false} WordLengthSpec(s: string)
    ensures var n := WordLength(s);
      (forall i :: 0 <= i < n ==> !IsSpace(s[i])) && (n == |s| || IsSpace(s[n]))
  {
    if s != [] && !IsSpace(s[0]) {
      WordLengthSpec(s[1..]);
      forall i | 1 <= i < WordLength(s) ensures !IsSpace(s[i]) {
        assert s[i] == s[1..][i - 1];
      }
    }
  }

  /** Leading whitespace contributes no characters. */
  lemma LStripNonSpace(s: string)
    ensures NonSpace(LStrip(s)) == NonSpace(s)
  {
    var t := LStrip(s);
    LStripSpec(s);
    assert s == s[..|s| - |t|] + t;
    NonSpaceAppend(s[..|s| - |t|], t);
    NonSpaceOfBlank(s[..|s| - |t|]);
  }

  /** A leading word followed by the rest. */
  lemma WordNonSpace(t: string, n: nat)
    requires n <= |t| && forall i :: 0 <= i < n ==> !IsSpace(t[i])
    ensures NonSpace(t) == t[..n] + NonSpace(t[n..])
  {
    assert t == t[..n] + t[n..];
    NonSpaceAppend(t[..n], t[n..]);
    NonSpaceOfWord(t[..n]);
  }

  /** A non-empty run of non-whitespace characters. */
  predicate IsWord(w: string) {
    w != [] && forall j :: 0 <= j < |w| ==> !IsSpace(w[j])
  }

  /** `s.split()`: the maximal runs of non-whitespace characters. */
  function SplitWhitespace(s: string): (words: seq<string>)
    decreases |s|
  {
    var t := LStrip(s);
    if t == [] then []
    else
      var n := WordLength(t);
      [t[..n]] + SplitWhitespace(t[n..])
  }

  /** Every word of `s.split()` is non-empty and free of whitespace. */
  lemma {:induction false} SplitWhitespaceWords(s: string)
    ensures forall w :: w in SplitWhitespace(s) ==> IsWord(w)
    decreases |s|
  {
    var t := LStrip(s);
    LStripSpec(s);
    if t != [] {
      var n := WordLength(t);
      WordLengthSpec(t);
      assert n >= 1;
      SplitWhitespaceWords(t[n..]);
      var rest := SplitWhitespace(t[n..]);
      assert SplitWhitespace(s) == [t[..n]] + rest;
      assert IsWord(t[..n]);
    }
  }

  /** Together the words of `s.split()` are exactly the non-whitespace
      characters of `s`, in order. */
  lemma {:induction false} SplitWhitespaceNonSpace(s: string)
    ensures Concat(SplitWhitespace(s)) == NonSpace(s)
    decreases |s|
  {
    var t := LStrip(s);
    LStripNonSpace(s);
    if t != [] {
      var n := WordLength(t);
      WordLengthSpec(t);
      WordNonSpace(t, n);
      SplitWhitespaceNonSpace(t[n..]);
      var rest := SplitWhitespace(t[n..]);
      assert SplitWhitespace(s) == [t[..n]] + rest;
      assert ([t[..n]] + rest)[1..] == rest;
    }
  }

  /** Length of the longest prefix of `s` whose characters satisfy `p`. */
  function LeadingRun(s: string, p: char -> bool): (n: nat)
    ensures n <= |s|
  {
    if s == [] || !p(s[0]) then 0 else 1 + LeadingRun(s[1..], p)
  }

  /** The run is the longest prefix whose characters satisfy `p`. */
  lemma {:induction false} LeadingRunSpec(s: string, p: char -> bool)
    ensures var n := LeadingRun(s, p);
      (forall i :: 0 <= i < n ==> p(s[i])) && (n == |s| || !p(s[n]))
  {
    if s != [] && p(s[0]) {
      LeadingRunSpec(s[1..], p);
    }
  }

  /** The run length is the only `m` whose prefix satisfies `p` and
      which is followed by the end or by a character failing `p`. */
  lemma {:induction false} LeadingRunUnique(s: string, p: char -> bool, m: nat)
    requires m <= |s| && (forall i :: 0 <= i < m ==> p(s[i])) && (m == |s| || !p(s[m]))
    ensures LeadingRun(s, p) == m
  {
    if m > 0 {
      LeadingRunUnique(s[1..], p, m - 1);
    }
  }

  // ---------------------------------------------------------------- prefixes, search, slices

  predicate StartsWith(s: string, p: string) {
    |p| <= |s| && s[..|p|] == p
  }

  predicate EndsWith(s: string, p: string) {
    |p| <= |s| && s[|s| - |p|..] == p
  }

  /** `p` occurs in `s` at index `i`. */
  predicate OccursAt(s: string, p: string, i: int) {
    0 <= i && i + |p| <= |s| && s[i..i + |p|] == p
  }

  function FindFrom(s: string, p: string, i: nat): (r: int)
    ensures r == -1 || (i <= r && OccursAt(s, p, r))
    ensures forall j :: i <= j && (r == -1 || j < r) ==> !OccursAt(s, p, j)
    decreases |s| - i
  {
    if i + |p| > |s| then -1
    else if s[i..i + |p|] == p then i
    else FindFrom(s, p, i + 1)
  }

  /** `s.find(p)`: the first index where `p` occurs, or -1. */
  function Find(s: string, p: string): (r: int)
    ensures r == -1 || OccursAt(s, p, r)
    ensures forall j :: 0 <= j && (r == -1 || j < r) ==> !OccursAt(s, p, j)
  {
    FindFrom(s, p, 0)
  }

  /** `p in s` for strings. */
  predicate Contains(s: string, p: string) {
    Find(s, p) != -1
  }

  function RFindBelow(s: string, p: string, i: int): (r: int)
    ensures r == -1 || (r <= i && OccursAt(s, p, r))
    ensures forall j :: r < j <= i ==> !OccursAt(s, p, j)
    decreases i + 1
  {
    if i < 0 then -1
    else if OccursAt(s, p, i) then i
    else RFindBelow(s, p, i - 1)
  }

  /** `s.rfind(p)`: the last index where `p` occurs, or -1. */
  function RFind(s: string, p: string): (r: int)
    ensures r == -1 || OccursAt(s, p, r)
    ensures forall j :: r < j ==> !OccursAt(s, p, j)
  {
    RFindBelow(s, p, |s|)
  }

  function Min(a: int, b: int): int { if a <= b then a else b }

  function Max(a: int, b: int): int { if a <= b then b else a }

  /** `s[a:b]` for non-negative bounds: bounds past the end are clamped and
      an empty range (`a >= b`) gives the empty string. */
  function Slice<T>(s: seq<T>, a: nat, b: nat): (r: seq<T>)
    ensures |r| <= |s|
  {
    var lo := Min(a, |s|);
    var hi := Min(b, |s|);
    if lo >= hi then [] else s[lo..hi]
  }

  /** `s[:n]` for any integer `n`: a negative `n` counts from the end. */
  function Take<T>(s: seq<T>, n: int): (r: seq<T>)
    ensures |r| == (if n >= 0 then Min(n, |s|) else Max(0, |s| + n))
    ensures r == s[..|r|]
  {
    if n >= 0 then s[..Min(n, |s|)] else s[..Max(0, |s| + n)]
  }

  /** `xs.index(x)`: the first position of `x` (by value), or `None` where
      Python raises ValueError. */
  function IndexOf<T(==)>(xs: seq<T>, x: T): (r: Option<nat>)
    ensures r.None? <==> x !in xs
    ensures r.Some? ==> r.value < |xs| && xs[r.value] == x && x !in xs[..r.value]
  {
    if xs == [] then None
    else if xs[0] == x then Some(0)
    else match IndexOf(xs[1..], x)
      case None => None
      case Some(i) => assert xs[1..][..i] == xs[1..i + 1]; Some(i + 1)
  }

  /** A position holding `x` with no `x` before it is what `index` finds. */
  lemma {:induction false} IndexOfFirst<T>(xs: seq<T>, x: T, i: nat)
    requires i < |xs| && xs[i] == x && x !in xs[..i]
    ensures IndexOf(xs, x) == Some(i)
  {
    if i > 0 {
      assert xs[..i][0] == xs[0];
      assert xs[1..][..i - 1] == xs[..i][1..];
      IndexOfFirst(xs[1..], x, i - 1);
    }
  }

  // ---------------------------------------------------------------- integers

  function DigitChar(d: nat): (c: char)
    requires d < 10
    ensures '0' <= c <= '9' && c as int - '0' as int == d
  {
    ('0' as int + d) as char
  }

  /** `str(n)` for a natural number: its decimal digits, most significant first. */
  function NatToString(n: nat): (r: string)
    ensures |r| >= 1
    ensures forall i :: 0 <= i < |r| ==> '0' <= r[i] <= '9'
  {
    if n < 10 then [DigitChar(n)] else NatToString(n / 10) + [DigitChar(n % 10)]
  }

  /** `str(n)` for an integer. */
  function IntToString(n: int): string {
    if n < 0 then "-" + NatToString(-n) else NatToString(n)
  }

  /** Reads decimal digits back: the inverse of `NatToString`. */
  function ParseDigits(s: string): nat
    requires forall i :: 0 <= i < |s| ==> '0' <= s[i] <= '9'
  {
    if s == [] then 0 else 10 * ParseDigits(s[..|s| - 1]) + (s[|s| - 1] as int - '0' as int)
  }

  lemma {:induction false} ParseNatToString(n: nat)
    ensures ParseDigits(NatToString(n)) == n
  {
    if n >= 10 {
      var r := NatToString(n);
      assert r[..|r| - 1] == NatToString(n / 10);
      ParseNatToString(n / 10);
      assert n == 10 * (n / 10) + n % 10;
    }
  }
}
