/** Python `str` operations used by the scripts, on `seq<char>`.
    The scripts run under Python 2, where `str` is a byte string: `upper()`
    and the regular-expression class `\d` act on ASCII only. */
module Strings {
  import opened Wrappers

  // ---------------------------------------------------------------- digits

  predicate IsDigit(c: char) {
    '0' <= c <= '9'
  }

  predicate AllDigits(s: string) {
    forall i :: 0 <= i < |s| ==> IsDigit(s[i])
  }

  function DigitValue(c: char): nat
    requires IsDigit(c)
  {
    c as int - '0' as int
  }

  function DigitChar(n: nat): (c: char)
    requires n < 10
    ensures IsDigit(c) && DigitValue(c) == n
  {
    ('0' as int + n) as char
  }

  /** Python's `int(d)` on a run of decimal digits (leading zeros allowed). */
  function DecimalValue(d: string): nat
    requires AllDigits(d)
  {
    if |d| == 0 then 0 else DecimalValue(d[..|d| - 1]) * 10 + DigitValue(d[|d| - 1])
  }

  /** Python's `str(n)` for a non-negative integer. */
  function NatToDecimal(n: nat): (d: string)
    ensures |d| > 0 && AllDigits(d)
  {
    if n < 10 then [DigitChar(n)] else NatToDecimal(n / 10) + [DigitChar(n % 10)]
  }

  /** Reading back a printed number gives the number. */
  lemma {:induction false} DecimalRoundTrip(n: nat)
    ensures DecimalValue(NatToDecimal(n)) == n
  {
    if n >= 10 {
      DecimalRoundTrip(n / 10);
      var d := NatToDecimal(n);
      assert d[..|d| - 1] == NatToDecimal(n / 10);
    }
  }

  /** Length of the maximal run of digits starting at position i: what the
      greedy `\d+` of a regular expression consumes there. */
  function DigitRun(s: string, i: nat): (n: nat)
    requires i <= |s|
    ensures i + n <= |s|
    ensures AllDigits(s[i..i + n])
    ensures i + n == |s| || !IsDigit(s[i + n])
    decreases |s| - i
  {
    if i < |s| && IsDigit(s[i]) then
      var m := DigitRun(s, i + 1);
      assert s[i..i + 1 + m] == [s[i]] + s[i + 1..i + 1 + m];
      1 + m
    else 0
  }

  /** The digit run of a printed number followed by a non-digit is exactly
      that number's text. */
  lemma {:induction false} DigitRunOfDecimal(pre: string, d: string, post: string)
    requires AllDigits(d)
    requires |post| > 0 && !IsDigit(post[0])
    ensures DigitRun(pre + d + post, |pre|) == |d|
    decreases |d|
  {
    var s := pre + d + post;
    if |d| > 0 {
      assert s == (pre + [d[0]]) + d[1..] + post;
      DigitRunOfDecimal(pre + [d[0]], d[1..], post);
    } else {
      assert s[|pre|] == post[0];
    }
  }

  // ---------------------------------------------------------------- case

  /** ASCII `upper()` of one character. */
  function UpperChar(c: char): char {
    if 'a' <= c <= 'z' then (c as int - 32) as char else c
  }

  function LowerChar(c: char): char {
    if 'A' <= c <= 'Z' then (c as int + 32) as char else c
  }

  /** Python 2 `s.upper()`. */
  function Upper(s: string): (u: string)
    ensures |u| == |s|
    ensures forall i :: 0 <= i < |s| ==> u[i] == UpperChar(s[i])
  {
    seq(|s|, i requires 0 <= i < |s| => UpperChar(s[i]))
  }

  predicate IsUpperWord(w: string) {
    forall i :: 0 <= i < |w| ==> 'A' <= w[i] <= 'Z'
  }

  /** s spells the upper-case word w with each letter in either case. */
  predicate CaseVariant(s: string, w: string) {
    |s| == |w| && forall i :: 0 <= i < |s| ==> s[i] == w[i] || s[i] == LowerChar(w[i])
  }

  /** `s.upper() == w`, for an upper-case word w, holds exactly for the
      case variants of w: each letter may be written in either case. */
  lemma UpperMatchesIff(s: string, w: string)
    requires IsUpperWord(w)
    ensures Upper(s) == w <==> CaseVariant(s, w)
  {
    if CaseVariant(s, w) {
      forall i | 0 <= i < |s|
        ensures Upper(s)[i] == w[i]
      {
        assert 'A' <= w[i] <= 'Z';
      }
    }
    if Upper(s) == w {
      forall i | 0 <= i < |s|
        ensures s[i] == w[i] || s[i] == LowerChar(w[i])
      {
        assert UpperChar(s[i]) == w[i];
      }
    }
  }

  // ---------------------------------------------------------------- substrings

  /** `pat` occurs in `s` starting at position k. */
  predicate OccursAt(s: string, pat: string, k: nat) {
    k + |pat| <= |s| && s[k..k + |pat|] == pat
  }

  /** `s.find(pat, from)`: the first occurrence at or after `from`. */
  function Find(s: string, pat: string, from: nat): (r: Option<nat>)
    requires from <= |s|
    ensures r.Some? ==> from <= r.value && OccursAt(s, pat, r.value)
    ensures forall k :: from <= k <= |s| && (r.None? || k < r.value) ==> !OccursAt(s, pat, k)
    decreases |s| - from
  {
    if OccursAt(s, pat, from) then Some(from)
    else if from == |s| then None
    else Find(s, pat, from + 1)
  }

  /** `s.split(pat)[0]`: the text before the first occurrence of `pat`, or
      all of `s` when `pat` does not occur. */
  function BeforeFirst(s: string, pat: string): (r: string)
    requires |pat| > 0
    ensures r <= s
    ensures r == s || OccursAt(s, pat, |r|)
    ensures forall k :: 0 <= k < |r| ==> !OccursAt(s, pat, k)
  {
    match Find(s, pat, 0)
    case Some(i) => s[..i]
    case None => s
  }

  /** `s.split(pat)[1]`, or None where Python raises IndexError because
      `pat` does not occur: the text between the first and the second
      occurrence of `pat` (or the end of `s`). */
  function SecondField(s: string, pat: string): (r: Option<string>)
    requires |pat| > 0
    ensures r.Some? <==> Find(s, pat, 0).Some?
    ensures r.Some? ==>
              var j := Find(s, pat, 0).value + |pat|;
              && j + |r.value| <= |s|
              && r.value == s[j..j + |r.value|]
              && (j + |r.value| == |s| || OccursAt(s, pat, j + |r.value|))
              && forall k :: j <= k < j + |r.value| ==> !OccursAt(s, pat, k)
  {
    match Find(s, pat, 0)
    case None => None
    case Some(i) =>
      var j := i + |pat|;
      match Find(s, pat, j)
      case Some(k) => Some(s[j..k])
      case None => Some(s[j..])
  }

  /** The second field is at least m long when `pat` does not occur in the
      m positions after the first occurrence. */
  lemma SecondFieldAtLeast(s: string, pat: string, m: nat)
    requires |pat| > 0
    requires Find(s, pat, 0).Some?
    requires Find(s, pat, 0).value + |pat| + m <= |s|
    requires forall k :: Find(s, pat, 0).value + |pat| <= k < Find(s, pat, 0).value + |pat| + m ==> !OccursAt(s, pat, k)
    ensures |SecondField(s, pat).value| >= m
  {
    var j := Find(s, pat, 0).value + |pat|;
    var field := SecondField(s, pat).value;
    var e: nat := j + |field|;
    assert |field| < m ==> e < |s| && !OccursAt(s, pat, e);
  }

  // ---------------------------------------------------------------- split and join

  /** Index of the first occurrence of the character c. */
  function IndexOf(s: string, c: char): (i: nat)
    requires c in s
    ensures i < |s| && s[i] == c && c !in s[..i]
  {
    if s[0] == c then 0
    else
      var j := IndexOf(s[1..], c);
      assert s[..1 + j] == [s[0]] + s[1..][..j];
      1 + j
  }

  /** Python's `s.split(sep)` for a one-character separator. */
  function Split(s: string, sep: char): (r: seq<string>)
    ensures |r| == multiset(s)[sep] + 1
    ensures forall i :: 0 <= i < |r| ==> sep !in r[i]
    decreases |s|
  {
    if sep !in s then [s]
    else
      var i := IndexOf(s, sep);
      var rest := Split(s[i + 1..], sep);
      assert s == s[..i] + [sep] + s[i + 1..];
      assert multiset(s)[sep] == multiset(s[..i])[sep] + 1 + multiset(s[i + 1..])[sep];
      [s[..i]] + rest
  }

  /** Python's `sep.join(parts)` for a one-character separator. */
  function Join(parts: seq<string>, sep: char): string {
    if |parts| == 0 then ""
    else if |parts| == 1 then parts[0]
    else parts[0] + [sep] + Join(parts[1..], sep)
  }

  /** Joining the fields of a split gives back the string. */
  lemma {:induction false} JoinSplit(s: string, sep: char)
    ensures Join(Split(s, sep), sep) == s
    decreases |s|
  {
    if sep in s {
      var i := IndexOf(s, sep);
      JoinSplit(s[i + 1..], sep);
      assert s == s[..i] + [sep] + s[i + 1..];
    }
  }

  /** A join of non-empty parts starts with the first part's first
      character and ends with the last part's last character. */
  lemma {:induction false} JoinEnds(parts: seq<string>, sep: char)
    requires |parts| > 0
    requires forall i :: 0 <= i < |parts| ==> |parts[i]| > 0
    ensures var j := Join(parts, sep);
            |j| > 0 && j[0] == parts[0][0] && j[|j| - 1] == parts[|parts| - 1][|parts[|parts| - 1]| - 1]
  {
    if |parts| > 1 {
      JoinEnds(parts[1..], sep);
    }
  }

  /** The first separator of `a + [sep] + b` is the one after `a` when `a`
      holds none. */
  lemma {:induction false} IndexOfAfterField(a: string, sep: char, b: string)
    requires sep !in a
    ensures IndexOf(a + [sep] + b, sep) == |a|
  {
    if |a| > 0 {
      assert (a + [sep] + b)[1..] == a[1..] + [sep] + b;
      IndexOfAfterField(a[1..], sep, b);
    }
  }

  /** Splitting a join of separator-free fields gives back the fields. */
  lemma {:induction false} SplitJoin(parts: seq<string>, sep: char)
    requires |parts| > 0
    requires forall i :: 0 <= i < |parts| ==> sep !in parts[i]
    ensures Split(Join(parts, sep), sep) == parts
  {
    if |parts| > 1 {
      SplitAtFirst(parts[0], sep, Join(parts[1..], sep));
      SplitJoin(parts[1..], sep);
      assert parts == [parts[0]] + parts[1..];
    }
  }

  /** Splitting at a first separator peels off the field before it. */
  lemma SplitAtFirst(a: string, sep: char, b: string)
    requires sep !in a
    ensures Split(a + [sep] + b, sep) == [a] + Split(b, sep)
  {
    var s := a + [sep] + b;
    IndexOfAfterField(a, sep, b);
    assert s[..|a|] == a;
    assert s[|a| + 1..] == b;
  }

  // ---------------------------------------------------------------- strip

  /** Python's `s.lstrip(chars)`. */
  function LStrip(s: string, chars: set<char>): (r: string)
    ensures |r| <= |s| && r == s[|s| - |r|..]
    ensures forall i :: 0 <= i < |s| - |r| ==> s[i] in chars
    ensures |r| == 0 || r[0] !in chars
  {
    if |s| > 0 && s[0] in chars then LStrip(s[1..], chars) else s
  }

  /** Python's `s.rstrip(chars)`. */
  function RStrip(s: string, chars: set<char>): (r: string)
    ensures r <= s
    ensures forall i :: |r| <= i < |s| ==> s[i] in chars
    ensures |r| == 0 || r[|r| - 1] !in chars
  {
    if |s| > 0 && s[|s| - 1] in chars then RStrip(s[..|s| - 1], chars) else s
  }

  /** How many characters `lstrip` removes: the length of the longest
      prefix of `s` drawn from `chars`. */
  function StripStart(s: string, chars: set<char>): (a: nat)
    ensures a <= |s| && LStrip(s, chars) == s[a..]
    ensures forall i :: 0 <= i < a ==> s[i] in chars
    ensures a == |s| || s[a] !in chars
  {
    |s| - |LStrip(s, chars)|
  }

  /** `r` is the slice of `s` that starts at `a` and is followed in `s`
      only by characters of `chars`. */
  predicate SliceWithTail(s: string, a: nat, r: string, chars: set<char>)
  {
    && a + |r| <= |s|
    && r == s[a..a + |r|]
    && (forall i :: a + |r| <= i < |s| ==> s[i] in chars)
  }

  /** Python's `s.strip(chars)`. */
  function Strip(s: string, chars: set<char>): (r: string)
    ensures |r| <= |s|
    ensures |r| == 0 || (r[0] !in chars && r[|r| - 1] !in chars)
  {
    RStrip(LStrip(s, chars), chars)
  }

  /** `strip` removes exactly the longest prefix and the longest suffix of
      `s` drawn from `chars`: what is left is the slice of `s` at
      `StripStart`, preceded and followed only by characters of `chars`,
      and (`Strip`'s own contract) beginning and ending outside `chars`. */
  lemma StripIsSlice(s: string, chars: set<char>)
    ensures var a := StripStart(s, chars);
            && (forall i :: 0 <= i < a ==> s[i] in chars)
            && SliceWithTail(s, a, Strip(s, chars), chars)
  {
    StripTail(s, StripStart(s, chars), LStrip(s, chars), Strip(s, chars), chars);
  }

  /** A prefix `r` of the tail `l == s[a..]`, followed in `l` only by
      characters of `chars`, is the slice of `s` at `a`. */
  lemma StripTail(s: string, a: nat, l: string, r: string, chars: set<char>)
    requires a <= |s| && l == s[a..] && r <= l
    requires forall i :: |r| <= i < |l| ==> l[i] in chars
    ensures SliceWithTail(s, a, r, chars)
  {
    forall i | a + |r| <= i < |s|
      ensures s[i] in chars
    {
      assert l[i - a] == s[i];
    }
  }

  lemma {:induction false} LStripKeepsOthers(s: string, chars: set<char>, c: char)
    requires c !in chars
    ensures multiset(LStrip(s, chars))[c] == multiset(s)[c]
  {
    if |s| > 0 && s[0] in chars {
      LStripKeepsOthers(s[1..], chars, c);
      CountWithoutFirst(s, c);
    }
  }

  lemma CountWithoutFirst(s: string, c: char)
    requires |s| > 0 && s[0] != c
    ensures multiset(s[1..])[c] == multiset(s)[c]
  {
    assert s == [s[0]] + s[1..];
  }

  lemma CountWithoutLast(s: string, c: char)
    requires |s| > 0 && s[|s| - 1] != c
    ensures multiset(s[..|s| - 1])[c] == multiset(s)[c]
  {
    assert s == s[..|s| - 1] + [s[|s| - 1]];
  }

  lemma {:induction false} RStripKeepsOthers(s: string, chars: set<char>, c: char)
    requires c !in chars
    ensures multiset(RStrip(s, chars))[c] == multiset(s)[c]
  {
    if |s| > 0 && s[|s| - 1] in chars {
      RStripKeepsOthers(s[..|s| - 1], chars, c);
      CountWithoutLast(s, c);
    }
  }

  /** Stripping removes only characters of `chars`, so every other
      character keeps its count. */
  lemma StripKeepsOthers(s: string, chars: set<char>, c: char)
    requires c !in chars
    ensures multiset(Strip(s, chars))[c] == multiset(s)[c]
  {
    LStripKeepsOthers(s, chars, c);
    RStripKeepsOthers(LStrip(s, chars), chars, c);
  }

  /** Stripping is idempotent. */
  lemma StripIdempotent(s: string, chars: set<char>)
    ensures Strip(Strip(s, chars), chars) == Strip(s, chars)
  {
    var r := Strip(s, chars);
    assert LStrip(r, chars) == r;
    assert RStrip(r, chars) == r;
  }

  /** A string whose end characters are not stripped is its own strip. */
  lemma StripFixed(s: string, chars: set<char>)
    requires |s| == 0 || (s[0] !in chars && s[|s| - 1] !in chars)
    ensures Strip(s, chars) == s
  {
    assert LStrip(s, chars) == s;
  }

  /** ASCII whitespace, as Python 2 `str.strip()` with no argument removes it. */
  const Whitespace: set<char> := {' ', '\t', '\n', '\r', 11 as char, 12 as char}

  // ---------------------------------------------------------------- paths

  /** `os.path.basename`: the text after the last '/'. */
  function Basename(p: string): (b: string)
    ensures '/' !in b
    ensures |b| <= |p| && p[|p| - |b|..] == b
    ensures |b| == |p| || p[|p| - |b| - 1] == '/'
  {
    if |p| == 0 || p[|p| - 1] == '/' then ""
    else
      var b := Basename(p[..|p| - 1]);
      assert p[..|p| - 1][|p| - 1 - |b|..] == b;
      b + [p[|p| - 1]]
  }

  /** `os.path.join(a, b)` on POSIX. */
  function PathJoin(a: string, b: string): string {
    if |b| > 0 && b[0] == '/' then b
    else if |a| == 0 || a[|a| - 1] == '/' then a + b
    else a + "/" + b
  }

  /** Joining a directory with a plain file name and taking the basename
      gives back the file name. */
  lemma BasenameOfJoin(dir: string, name: string)
    requires |name| > 0 && '/' !in name
    ensures Basename(PathJoin(dir, name)) == name
  {
    var p := PathJoin(dir, name);
    assert p[|p| - |name|..] == name;
    BasenameOfSuffix(p, name);
  }

  lemma {:induction false} BasenameOfSuffix(p: string, name: string)
    requires '/' !in name
    requires |name| <= |p| && p[|p| - |name|..] == name
    requires |name| == |p| || p[|p| - |name| - 1] == '/'
    ensures Basename(p) == name
    decreases |name|
  {
    if |name| > 0 {
      assert p[|p| - 1] == name[|name| - 1];
      var q := p[..|p| - 1];
      assert q[|q| - (|name| - 1)..] == name[..|name| - 1];
      BasenameOfSuffix(q, name[..|name| - 1]);
    } else if |p| > 0 {
      assert p[|p| - 1] == '/';
    }
  }

  // ---------------------------------------------------------------- ordering

  /** Python's `<=` on strings: lexicographic by character code. */
  predicate LexLe(a: string, b: string) {
    |a| == 0 || (|b| > 0 && (a[0] < b[0] || (a[0] == b[0] && LexLe(a[1..], b[1..]))))
  }

  lemma {:induction false} LexLeTotal(a: string, b: string)
    ensures LexLe(a, b) || LexLe(b, a)
  {
    if |a| > 0 && |b| > 0 && a[0] == b[0] {
      LexLeTotal(a[1..], b[1..]);
    }
  }

  lemma {:induction false} LexLeAntisymmetric(a: string, b: string)
    requires LexLe(a, b) && LexLe(b, a)
    ensures a == b
  {
    if |a| > 0 && |b| > 0 {
      LexLeAntisymmetric(a[1..], b[1..]);
      assert a == [a[0]] + a[1..];
      assert b == [b[0]] + b[1..];
    }
  }

  lemma {:induction false} LexLeTransitive(a: string, b: string, c: string)
    requires LexLe(a, b) && LexLe(b, c)
    ensures LexLe(a, c)
  {
    if |a| > 0 && a[0] == b[0] && b[0] == c[0] {
      LexLeTransitive(a[1..], b[1..], c[1..]);
    }
  }

  /** The empty string is below every string. */
  lemma EmptyLexLeast(a: string)
    requires LexLe(a, "")
    ensures a == ""
  {
  }
}
