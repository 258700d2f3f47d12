/** Recovering the subband group of a dataset from its name
    (scripts/check_frequencies.py, `get_group_sb`). Two regular expressions
    are searched for, `_SBgr(\d+)-(\d+)_` and `_SB(\d+)_`; `re.findall`
    returns the leftmost match first, and the greedy `\d+` always takes the
    whole run of digits, which is how a match is decided here. */
module NameResolver {
  import opened Wrappers
  import opened Strings

  /** The group index and the number of subbands per group. */
  datatype GroupSb = GroupSb(group: nat, sbPerGroup: nat)

  /** The grouped token `_SBgr<d1>-<d2>_` sits at position p of s. */
  predicate GroupedToken(s: string, p: nat, d1: string, d2: string) {
    |d1| > 0 && |d2| > 0 && AllDigits(d1) && AllDigits(d2) &&
    OccursAt(s, "_SBgr" + d1 + "-" + d2 + "_", p)
  }

  /** The single token `_SB<d>_` sits at position p of s. */
  predicate SingleToken(s: string, p: nat, d: string) {
    |d| > 0 && AllDigits(d) && OccursAt(s, "_SB" + d + "_", p)
  }

  /** A digit run that ends at the end of the text or before a non-digit is
      the maximal one. */
  lemma {:induction false} DigitRunExact(s: string, i: nat, k: nat)
    requires i + k <= |s|
    requires forall j :: i <= j < i + k ==> IsDigit(s[j])
    requires i + k == |s| || !IsDigit(s[i + k])
    ensures DigitRun(s, i) == k
    decreases k
  {
    if k > 0 {
      DigitRunExact(s, i + 1, k - 1);
    }
  }

  /** An occurrence agrees with the pattern character by character. */
  lemma OccursChars(s: string, t: string, p: nat)
    requires OccursAt(s, t, p)
    ensures forall i :: 0 <= i < |t| ==> s[p + i] == t[i]
  {
    forall i | 0 <= i < |t|
      ensures s[p + i] == t[i]
    {
      assert s[p..p + |t|][i] == s[p + i];
    }
  }

  /** The layout of the grouped token, character by character. */
  lemma GroupedLayout(d1: string, d2: string)
    ensures var t := "_SBgr" + d1 + "-" + d2 + "_";
            && |t| == 7 + |d1| + |d2|
            && t[..5] == "_SBgr"
            && (forall i :: 0 <= i < |d1| ==> t[5 + i] == d1[i])
            && t[5 + |d1|] == '-'
            && (forall i :: 0 <= i < |d2| ==> t[6 + |d1| + i] == d2[i])
            && t[6 + |d1| + |d2|] == '_'
  {
  }

  /** The layout of the single token, character by character. */
  lemma SingleLayout(d: string)
    ensures var t := "_SB" + d + "_";
            && |t| == 4 + |d|
            && t[..3] == "_SB"
            && (forall i :: 0 <= i < |d| ==> t[3 + i] == d[i])
            && t[3 + |d|] == '_'
  {
  }

  /** What `_SBgr(\d+)-(\d+)_` captures when matched at position p. */
  function GroupedFields(s: string, p: nat): (r: Option<(string, string)>)
    ensures r.Some? ==> GroupedToken(s, p, r.value.0, r.value.1)
  {
    if !OccursAt(s, "_SBgr", p) then None
    else
      var q := p + 5;
      var n1 := DigitRun(s, q);
      if n1 == 0 || q + n1 >= |s| || s[q + n1] != '-' then None
      else
        var q2 := q + n1 + 1;
        var n2 := DigitRun(s, q2);
        if n2 == 0 || q2 + n2 >= |s| || s[q2 + n2] != '_' then None
        else
          var d1 := s[q..q + n1];
          var d2 := s[q2..q2 + n2];
          GroupedSound(s, p, d1, d2);
          Some((d1, d2))
  }

  lemma GroupedSound(s: string, p: nat, d1: string, d2: string)
    requires OccursAt(s, "_SBgr", p)
    requires |d1| > 0 && |d2| > 0 && AllDigits(d1) && AllDigits(d2)
    requires p + 6 + |d1| + |d2| < |s|
    requires s[p + 5..p + 5 + |d1|] == d1 && s[p + 5 + |d1|] == '-'
    requires s[p + 6 + |d1|..p + 6 + |d1| + |d2|] == d2 && s[p + 6 + |d1| + |d2|] == '_'
    ensures GroupedToken(s, p, d1, d2)
  {
    var t := "_SBgr" + d1 + "-" + d2 + "_";
    GroupedLayout(d1, d2);
    OccursChars(s, "_SBgr", p);
    forall i | 0 <= i < |t|
      ensures s[p..p + |t|][i] == t[i]
    {
      if i < 5 {
        assert t[i] == t[..5][i];
      } else if i < 5 + |d1| {
        assert s[p + i] == s[p + 5..p + 5 + |d1|][i - 5];
      } else if 6 + |d1| <= i < 6 + |d1| + |d2| {
        assert s[p + i] == s[p + 6 + |d1|..p + 6 + |d1| + |d2|][i - 6 - |d1|];
      }
    }
  }

  /** A grouped token fixes both digit runs: each is the maximal run at
      its position, followed by the separator the pattern demands, so the
      match at that position captures exactly the token's two fields. */
  lemma GroupedTokenFields(s: string, p: nat, d1: string, d2: string)
    requires GroupedToken(s, p, d1, d2)
    ensures GroupedFields(s, p) == Some((d1, d2))
  {
    var t := "_SBgr" + d1 + "-" + d2 + "_";
    GroupedLayout(d1, d2);
    OccursChars(s, t, p);
    assert s[p..p + 5] == t[..5];
    FieldAt(s, t, p, 5, d1);
    FieldAt(s, t, p, 6 + |d1|, d2);
    GroupedFieldsOfRuns(s, p, d1, d2);
  }

  lemma GroupedFieldsOfRuns(s: string, p: nat, d1: string, d2: string)
    requires OccursAt(s, "_SBgr", p) && |d1| > 0 && |d2| > 0
    requires p + 6 + |d1| + |d2| < |s|
    requires DigitRun(s, p + 5) == |d1| && s[p + 5..p + 5 + |d1|] == d1 && s[p + 5 + |d1|] == '-'
    requires DigitRun(s, p + 6 + |d1|) == |d2| && s[p + 6 + |d1|..p + 6 + |d1| + |d2|] == d2
    requires s[p + 6 + |d1| + |d2|] == '_'
    ensures GroupedFields(s, p) == Some((d1, d2))
  {
  }

  /** A digit field of a pattern occurrence, followed in the pattern by a
      non-digit, is the maximal digit run at its position in the text. */
  lemma FieldAt(s: string, t: string, p: nat, k: nat, d: string)
    requires p + |t| <= |s|
    requires forall i :: 0 <= i < |t| ==> s[p + i] == t[i]
    requires k + |d| < |t| && AllDigits(d) && !IsDigit(t[k + |d|])
    requires forall i :: 0 <= i < |d| ==> t[k + i] == d[i]
    ensures DigitRun(s, p + k) == |d| && s[p + k..p + k + |d|] == d
    ensures s[p + k + |d|] == t[k + |d|]
  {
    forall j | p + k <= j < p + k + |d|
      ensures IsDigit(s[j])
    {
      assert s[j] == t[j - p] == d[j - p - k];
    }
    assert s[p + k + |d|] == t[k + |d|];
    DigitRunExact(s, p + k, |d|);
    forall i | 0 <= i < |d|
      ensures s[p + k..p + k + |d|][i] == d[i]
    {
      assert s[p + k + i] == t[k + i];
    }
  }

  /** What `_SB(\d+)_` captures when matched at position p. */
  function SingleField(s: string, p: nat): (r: Option<string>)
    ensures r.Some? ==> SingleToken(s, p, r.value)
  {
    if !OccursAt(s, "_SB", p) then None
    else
      var q := p + 3;
      var n := DigitRun(s, q);
      if n == 0 || q + n >= |s| || s[q + n] != '_' then None
      else
        var d := s[q..q + n];
        assert s[p..q + n + 1] == s[p..q] + d + [s[q + n]];
        Some(d)
  }

  /** The match of the single pattern at a token's position captures
      exactly the token's digits. */
  lemma SingleTokenField(s: string, p: nat, d: string)
    requires SingleToken(s, p, d)
    ensures SingleField(s, p) == Some(d)
  {
    var t := "_SB" + d + "_";
    SingleLayout(d);
    OccursChars(s, t, p);
    assert s[p..p + 3] == t[..3];
    FieldAt(s, t, p, 3, d);
  }

  /** The leftmost position at or after `from` where the grouped pattern
      matches. */
  function FirstGrouped(s: string, from: nat): (r: Option<nat>)
    requires from <= |s|
    ensures r.Some? ==> from <= r.value <= |s| && GroupedFields(s, r.value).Some?
    ensures r.Some? ==> forall q :: from <= q < r.value ==> GroupedFields(s, q).None?
    ensures r.None? ==> forall q :: from <= q <= |s| ==> GroupedFields(s, q).None?
    decreases |s| - from
  {
    if GroupedFields(s, from).Some? then Some(from)
    else if from == |s| then None
    else FirstGrouped(s, from + 1)
  }

  /** The leftmost position at or after `from` where the single pattern
      matches. */
  function FirstSingle(s: string, from: nat): (r: Option<nat>)
    requires from <= |s|
    ensures r.Some? ==> from <= r.value <= |s| && SingleField(s, r.value).Some?
    ensures r.Some? ==> forall q :: from <= q < r.value ==> SingleField(s, q).None?
    ensures r.None? ==> forall q :: from <= q <= |s| ==> SingleField(s, q).None?
    decreases |s| - from
  {
    if SingleField(s, from).Some? then Some(from)
    else if from == |s| then None
    else FirstSingle(s, from + 1)
  }

  /** `get_group_sb(name)`: the grouped token wins; a single token gives
      group size 1; `None` stands for the pair `(None, None)`. */
  function GetGroupSb(name: string): (r: Option<GroupSb>)
    ensures r.Some? ==> r.value.sbPerGroup == 1 || FirstGrouped(name, 0).Some?
  {
    match FirstGrouped(name, 0)
    case Some(p) =>
      var f := GroupedFields(name, p).value;
      Some(GroupSb(DecimalValue(f.0), DecimalValue(f.1)))
    case None =>
      match FirstSingle(name, 0)
      case Some(p) => Some(GroupSb(DecimalValue(SingleField(name, p).value), 1))
      case None => None
  }

  /** The leftmost grouped token decides the result, whatever single tokens
      the name also holds. */
  lemma GroupedTokenWins(name: string, p: nat, d1: string, d2: string)
    requires GroupedToken(name, p, d1, d2)
    requires forall q: nat, e1, e2 :: q < p ==> !GroupedToken(name, q, e1, e2)
    ensures GetGroupSb(name) == Some(GroupSb(DecimalValue(d1), DecimalValue(d2)))
  {
    assert p <= |name|;
    GroupedTokenFields(name, p, d1, d2);
    var r := FirstGrouped(name, 0);
    assert r.Some? && r.value <= p;
  }

  /** Without any grouped token, the leftmost single token gives the group,
      with one subband per group. */
  lemma SingleTokenFallback(name: string, p: nat, d: string)
    requires forall q: nat, e1, e2 :: !GroupedToken(name, q, e1, e2)
    requires SingleToken(name, p, d)
    requires forall q: nat, e :: q < p ==> !SingleToken(name, q, e)
    ensures GetGroupSb(name) == Some(GroupSb(DecimalValue(d), 1))
  {
    assert p <= |name|;
    SingleTokenField(name, p, d);
    var r := FirstSingle(name, 0);
    assert r.Some? && r.value <= p;
  }

  /** The name is unresolvable exactly when it holds neither token. */
  lemma UnresolvableIff(name: string)
    ensures GetGroupSb(name).None? <==>
              (forall q: nat, e1, e2 :: !GroupedToken(name, q, e1, e2)) &&
              (forall q: nat, e :: !SingleToken(name, q, e))
  {
    if GetGroupSb(name).None? {
      forall q: nat, e1, e2 ensures !GroupedToken(name, q, e1, e2) {
        if GroupedToken(name, q, e1, e2) {
          GroupedTokenFields(name, q, e1, e2);
        }
      }
      forall q: nat, e ensures !SingleToken(name, q, e) {
        if SingleToken(name, q, e) {
          SingleTokenField(name, q, e);
        }
      }
    } else {
      match FirstGrouped(name, 0)
      case Some(p) =>
        var f := GroupedFields(name, p).value;
        assert GroupedToken(name, p, f.0, f.1);
      case None =>
        var p := FirstSingle(name, 0).value;
        assert SingleToken(name, p, SingleField(name, p).value);
    }
  }

  /** The characters every grouped token fixes: its leading `_SBg` and its
      closing underscore. */
  lemma GroupedTokenShape(s: string, q: nat, e1: string, e2: string)
    ensures GroupedToken(s, q, e1, e2) ==>
              && q + 7 + |e1| + |e2| <= |s|
              && s[q] == '_' && s[q + 2] == 'B' && s[q + 3] == 'g' && s[q + 6 + |e1| + |e2|] == '_'
  {
    if GroupedToken(s, q, e1, e2) {
      GroupedLayout(e1, e2);
      OccursChars(s, "_SBgr" + e1 + "-" + e2 + "_", q);
    }
  }

  /** The characters every single token fixes: its leading `_SB`. */
  lemma SingleTokenShape(s: string, q: nat, e: string)
    ensures SingleToken(s, q, e) ==>
              q + 4 + |e| <= |s| && s[q] == '_' && s[q + 1] == 'S' && s[q + 2] == 'B'
  {
    if SingleToken(s, q, e) {
      SingleLayout(e);
      OccursChars(s, "_SB" + e + "_", q);
    }
  }

  /** Every token begins with an underscore, so no token starts among the
      first k characters when none of them is an underscore. */
  lemma NoTokenBefore(s: string, k: nat)
    requires forall j :: 0 <= j < k && j < |s| ==> s[j] != '_'
    ensures forall q: nat, e1, e2 :: q < k ==> !GroupedToken(s, q, e1, e2)
    ensures forall q: nat, e :: q < k ==> !SingleToken(s, q, e)
  {
    forall q: nat, e1, e2 | q < k
      ensures !GroupedToken(s, q, e1, e2)
    {
      GroupedTokenShape(s, q, e1, e2);
    }
    forall q: nat, e | q < k
      ensures !SingleToken(s, q, e)
    {
      SingleTokenShape(s, q, e);
    }
  }

  lemma PrefixChars(pre: string, s: string)
    requires '_' !in pre
    requires |pre| <= |s| && s[..|pre|] == pre
    ensures forall j :: 0 <= j < |pre| && j < |s| ==> s[j] != '_'
  {
    forall j | 0 <= j < |pre|
      ensures s[j] != '_'
    {
      assert s[j] == s[..|pre|][j] == pre[j];
    }
  }

  /** A name built as `<pre>_SBgr<d1>-<d2>_<post>`, with no underscore in
      `pre`, resolves to the numbers the two digit fields spell. */
  lemma GroupedNameRoundTrip(pre: string, d1: string, d2: string, post: string)
    requires '_' !in pre
    requires |d1| > 0 && |d2| > 0 && AllDigits(d1) && AllDigits(d2)
    ensures GetGroupSb(pre + "_SBgr" + d1 + "-" + d2 + "_" + post) ==
              Some(GroupSb(DecimalValue(d1), DecimalValue(d2)))
  {
    var t := "_SBgr" + d1 + "-" + d2 + "_";
    var s := pre + t + post;
    assert pre + "_SBgr" + d1 + "-" + d2 + "_" + post == s;
    assert s[|pre|..|pre| + |t|] == t;
    assert GroupedToken(s, |pre|, d1, d2);
    assert s[..|pre|] == pre;
    PrefixChars(pre, s);
    NoTokenBefore(s, |pre|);
    GroupedTokenWins(s, |pre|, d1, d2);
  }

  /** Printing two numbers into a grouped name and resolving the name gives
      the numbers back. */
  lemma GroupedNumbersRoundTrip(pre: string, g: nat, n: nat, post: string)
    requires '_' !in pre
    ensures GetGroupSb(pre + "_SBgr" + NatToDecimal(g) + "-" + NatToDecimal(n) + "_" + post) == Some(GroupSb(g, n))
  {
    GroupedNameRoundTrip(pre, NatToDecimal(g), NatToDecimal(n), post);
    DecimalRoundTrip(g);
    DecimalRoundTrip(n);
  }

  /** A name `<pre>_SB<d>_<post>`, with no underscore in `pre` or `post`,
      resolves to group `d` with one subband per group. */
  lemma SingleNameRoundTrip(pre: string, d: string, post: string)
    requires '_' !in pre && '_' !in post
    requires |d| > 0 && AllDigits(d)
    ensures GetGroupSb(pre + "_SB" + d + "_" + post) == Some(GroupSb(DecimalValue(d), 1))
  {
    var s := pre + "_SB" + d + "_" + post;
    SingleTokenAfterPrefix(pre, d, post);
    assert s[..|pre|] == pre;
    PrefixChars(pre, s);
    NoTokenBefore(s, |pre|);
    NoGroupedTokenInSingleName(pre, d, post);
    SingleTokenFallback(s, |pre|, d);
  }

  lemma SingleTokenAfterPrefix(pre: string, d: string, post: string)
    requires |d| > 0 && AllDigits(d)
    ensures SingleToken(pre + "_SB" + d + "_" + post, |pre|, d)
  {
    var t := "_SB" + d + "_";
    var s := pre + "_SB" + d + "_" + post;
    assert s == pre + t + post;
    assert s[|pre|..|pre| + |t|] == t;
  }

  /** A name whose only underscores are the two of one single token holds
      no grouped token: the character after `_SB` is a digit, not `g`, and
      a token starting at the second underscore would need a third. */
  lemma NoGroupedTokenInSingleName(pre: string, d: string, post: string)
    requires '_' !in pre && '_' !in post
    requires |d| > 0 && AllDigits(d)
    ensures forall q: nat, e1, e2 :: !GroupedToken(pre + "_SB" + d + "_" + post, q, e1, e2)
  {
    var s := pre + "_SB" + d + "_" + post;
    var close := |pre| + 3 + |d|;
    assert |s| == close + 1 + |post|;
    assert s[|pre| + 3] == d[0];
    forall j | 0 <= j < |s| && j != |pre| && j != close
      ensures s[j] != '_'
    {
      if j < |pre| {
        assert s[j] == pre[j];
      } else if j < |pre| + 3 {
        assert s[j] == "_SB"[j - |pre|];
      } else if j < close {
        assert s[j] == d[j - |pre| - 3];
      } else {
        assert s[j] == post[j - close - 1];
      }
    }
    forall q: nat, e1, e2
      ensures !GroupedToken(s, q, e1, e2)
    {
      GroupedTokenShape(s, q, e1, e2);
    }
  }

  /** A grouped name with a zero-padded group index. */
  lemma GroupedNamingExample()
    ensures GetGroupSb("L12345_SBgr03-10_uv.MS") == Some(GroupSb(3, 10))
  {
    GroupedExampleSpelled();
    GroupedNameRoundTrip("L12345", "03", "10", "uv.MS");
    ExampleDecimals();
  }

  lemma GroupedExampleSpelled()
    ensures "L12345_SBgr03-10_uv.MS" == "L12345" + "_SBgr" + "03" + "-" + "10" + "_" + "uv.MS"
  {
    assert "L12345" + "_SBgr" == "L12345_SBgr";
    assert "L12345_SBgr" + "03" == "L12345_SBgr03";
    assert "L12345_SBgr03" + "-" == "L12345_SBgr03-";
    assert "L12345_SBgr03-" + "10" == "L12345_SBgr03-10";
    assert "L12345_SBgr03-10" + "_" == "L12345_SBgr03-10_";
  }

  lemma ExampleDecimals()
    ensures DecimalValue("03") == 3 && DecimalValue("10") == 10
    ensures DecimalValue("042") == 42
  {
    assert "03"[..1] == "0" && "10"[..1] == "1";
    assert "042"[..2] == "04" && "04"[..1] == "0";
    assert DecimalValue("04") == 4;
  }

  /** A single-subband name: the subband index becomes the group. */
  lemma SingleNamingExample()
    ensures GetGroupSb("L12345_SB042_uv.MS") == Some(GroupSb(42, 1))
  {
    SingleExampleSpelled();
    SingleNameRoundTrip("L12345", "042", "uv.MS");
    ExampleDecimals();
  }

  lemma SingleExampleSpelled()
    ensures "L12345_SB042_uv.MS" == "L12345" + "_SB" + "042" + "_" + "uv.MS"
  {
    assert "L12345" + "_SB" == "L12345_SB";
    assert "L12345_SB" + "042" == "L12345_SB042";
    assert "L12345_SB042" + "_" == "L12345_SB042_";
  }

  /** A name with neither token is unresolvable. */
  lemma UnresolvableNamingExample()
    ensures GetGroupSb("no_pattern_here.MS") == None
  {
    var s := "no_pattern_here.MS";
    assert 'B' !in s;
    forall q: nat, e1, e2
      ensures !GroupedToken(s, q, e1, e2)
    {
      GroupedTokenShape(s, q, e1, e2);
    }
    forall q: nat, e
      ensures !SingleToken(s, q, e)
    {
      SingleTokenShape(s, q, e);
    }
    UnresolvableIff(s);
  }
}
