/** The reference table of subband frequencies, the central frequency of a
    subband group, and the hand-written rules that choose the neighbouring
    group whose centre fixes the channel spacing
    (scripts/check_frequencies.py, `get_central_freq` and the first half of
    `compute_freqs`). The table (`mfreq.npy`) is passed in as a sequence. */
module CentralFrequency {
  import opened Wrappers

  /** Why a frequency correction fails. */
  datatype FreqError =
    | UnresolvableName        // ValueError: neither name pattern matches
    | IndexOutOfRange(index: int)  // IndexError on the reference table
    | NoSpacing               // IndexError: width correction of a single channel

  /** Python (numpy) indexing: a negative index counts from the end. */
  predicate ValidIndex(table: seq<real>, idx: int) {
    -|table| <= idx < |table|
  }

  /** `table[idx]` as numpy evaluates it. */
  function At(table: seq<real>, idx: int): (r: Result<real, FreqError>)
    ensures r.Ok? <==> ValidIndex(table, idx)
    ensures r.Ok? && idx >= 0 ==> r.value == table[idx]
    ensures r.Ok? && idx < 0 ==> r.value == table[|table| + idx]
    ensures r.Err? ==> r.error == IndexOutOfRange(idx)
  {
    if 0 <= idx < |table| then Ok(table[idx])
    else if -|table| <= idx < 0 then Ok(table[|table| + idx])
    else Err(IndexOutOfRange(idx))
  }

  /** The table positions `get_central_freq(group, sbPerGroup, corr)` reads,
      in evaluation order: two for an even group size, one for an odd one. */
  function CentreIndices(group: int, sbPerGroup: int, corr: int): seq<int> {
    var mid := group * sbPerGroup + sbPerGroup / 2 + corr;
    if sbPerGroup % 2 == 0 then [mid - 1, mid] else [mid]
  }

  /** `get_central_freq`: the middle table entry of the group's subbands,
      or the mean of the two middle entries when the group size is even,
      all shifted by `corr` positions. */
  function CentralFreq(table: seq<real>, group: int, sbPerGroup: int, corr: int): (r: Result<real, FreqError>)
    ensures r.Ok? ==> forall k :: 0 <= k < |CentreIndices(group, sbPerGroup, corr)| ==>
                        ValidIndex(table, CentreIndices(group, sbPerGroup, corr)[k])
    ensures r.Err? ==> exists k :: && 0 <= k < |CentreIndices(group, sbPerGroup, corr)|
                                   && !ValidIndex(table, CentreIndices(group, sbPerGroup, corr)[k])
                                   && r.error == IndexOutOfRange(CentreIndices(group, sbPerGroup, corr)[k])
  {
    var ix := CentreIndices(group, sbPerGroup, corr);
    if sbPerGroup % 2 == 0 then
      var lo :- At(table, ix[0]);
      var hi :- At(table, ix[1]);
      Ok((lo + hi) / 2.0)
    else
      At(table, ix[0])
  }

  /** The lookup succeeds exactly when every position it reads is a valid
      Python index. */
  lemma CentralFreqOkIff(table: seq<real>, group: int, sbPerGroup: int, corr: int)
    ensures CentralFreq(table, group, sbPerGroup, corr).Ok? <==>
              forall k :: 0 <= k < |CentreIndices(group, sbPerGroup, corr)| ==>
                ValidIndex(table, CentreIndices(group, sbPerGroup, corr)[k])
  {
    var ix := CentreIndices(group, sbPerGroup, corr);
    if sbPerGroup % 2 == 0 {
      assert ix == [ix[0], ix[1]];
    } else {
      assert ix == [ix[0]];
    }
  }

  /** With the whole shifted group inside the table, an odd-sized group's
      centre is the one entry with as many group members below it as above
      it, and an even-sized group's centre is the mean of the two adjacent
      entries that straddle the middle. */
  lemma CentralFreqIsGroupMiddle(table: seq<real>, group: int, sbPerGroup: int, corr: int, i: int)
    requires sbPerGroup >= 1
    requires 0 <= group * sbPerGroup + corr
    requires group * sbPerGroup + corr + sbPerGroup <= |table|
    requires sbPerGroup % 2 == 1 ==> i - (group * sbPerGroup + corr) == (group * sbPerGroup + corr + sbPerGroup - 1) - i
    requires sbPerGroup % 2 == 0 ==> i - (group * sbPerGroup + corr) == (group * sbPerGroup + corr + sbPerGroup - 1) - (i + 1)
    ensures sbPerGroup % 2 == 1 ==> 0 <= i < |table| && CentralFreq(table, group, sbPerGroup, corr) == Ok(table[i])
    ensures sbPerGroup % 2 == 0 ==>
              0 <= i && i + 1 < |table| &&
              CentralFreq(table, group, sbPerGroup, corr) == Ok((table[i] + table[i + 1]) / 2.0)
  {
  }

  /** A table whose entries are evenly spaced: entry i is a + i * d. */
  ghost predicate Linear(table: seq<real>, a: real, d: real) {
    forall i :: 0 <= i < |table| ==> table[i] == a + (i as real) * d
  }

  /** On an evenly spaced table, the frequency halfway between the first
      and the last of `n` entries starting at position `start`. */
  function LinearCentre(a: real, d: real, start: int, n: int): real {
    a + (start as real + (n as real - 1.0) / 2.0) * d
  }

  /** On an evenly spaced table both parities give the same answer: the
      frequency halfway between the group's first and last subband. */
  lemma CentralFreqOfLinearTable(table: seq<real>, a: real, d: real, group: int, sbPerGroup: int, corr: int)
    requires Linear(table, a, d)
    requires sbPerGroup >= 1
    requires forall k :: 0 <= k < |CentreIndices(group, sbPerGroup, corr)| ==>
               0 <= CentreIndices(group, sbPerGroup, corr)[k] < |table|
    ensures CentralFreq(table, group, sbPerGroup, corr) == Ok(LinearCentre(a, d, group * sbPerGroup + corr, sbPerGroup))
  {
    var start := group * sbPerGroup + corr;
    var mid := start + sbPerGroup / 2;
    var ix := CentreIndices(group, sbPerGroup, corr);
    assert 0 <= ix[0] && ix[|ix| - 1] < |table|;
    if sbPerGroup % 2 == 0 {
      EvenMiddle(table[mid - 1], table[mid], a, d, start, sbPerGroup, mid);
    } else {
      OddMiddle(table[mid], a, d, start, sbPerGroup, mid);
    }
  }

  lemma EvenMiddle(lo: real, hi: real, a: real, d: real, start: int, n: int, mid: int)
    requires n % 2 == 0 && mid == start + n / 2
    requires lo == a + ((mid - 1) as real) * d && hi == a + (mid as real) * d
    ensures (lo + hi) / 2.0 == LinearCentre(a, d, start, n)
  {
    assert (n / 2) as real == n as real / 2.0;
    assert lo + hi == 2.0 * a + ((mid - 1) as real + mid as real) * d;
    assert (mid - 1) as real + mid as real == 2.0 * (start as real + (n as real - 1.0) / 2.0);
  }

  lemma OddMiddle(v: real, a: real, d: real, start: int, n: int, mid: int)
    requires n % 2 == 1 && mid == start + n / 2
    requires v == a + (mid as real) * d
    ensures v == LinearCentre(a, d, start, n)
  {
    assert (n / 2) as real == (n as real - 1.0) / 2.0;
  }

  /** The index shift for the group's own centre: subbands of 10-subband
      groups from group 32 on sit one position further along the table. */
  function OwnCorr(group: int, sbPerGroup: int): (c: int)
    ensures c == 0 || c == 1
    ensures c == 1 <==> sbPerGroup == 10 && group >= 32
  {
    if sbPerGroup == 10 && group >= 32 then 1 else 0
  }

  /** The neighbouring group used only to derive the channel spacing, and
      its index shift. */
  datatype Neighbour = Neighbour(group: int, corr: int)

  /** The rule table of `compute_freqs`, evaluated top to bottom, first
      match wins. */
  function NeighbourOf(group: int, sbPerGroup: int): (r: Neighbour)
    ensures r.group == group - 1 || r.group == group + 1
    ensures r.corr == 0 || r.corr == 1
  {
    if sbPerGroup == 10 then
      if group < 30 then Neighbour(group + 1, 0)
      else if group == 32 then Neighbour(group - 1, 1)
      else if group == 33 then Neighbour(group + 1, 1)
      else if 33 < group <= 37 then Neighbour(group - 1, 1)
      else Neighbour(group - 1, 0)
    else if sbPerGroup == 1 then
      if group < 319 || group == 321 then Neighbour(group + 1, 0)
      else if group > 321 || group == 319 then Neighbour(group - 1, 0)
      else Neighbour(group + 1, 0)
    else
      Neighbour(group + 1, 0)
  }

  /** The rule table restated region by region, as disjoint ranges of the
      group index: this is what first-match-wins evaluation amounts to. */
  lemma NeighbourRegions(group: int, sbPerGroup: int)
    ensures sbPerGroup == 10 ==>
              && (NeighbourOf(group, sbPerGroup) == Neighbour(group + 1, 0) <==> group < 30)
              && (NeighbourOf(group, sbPerGroup) == Neighbour(group - 1, 0) <==> group == 30 || group == 31 || group > 37)
              && (NeighbourOf(group, sbPerGroup) == Neighbour(group - 1, 1) <==> group == 32 || 34 <= group <= 37)
              && (NeighbourOf(group, sbPerGroup) == Neighbour(group + 1, 1) <==> group == 33)
    ensures sbPerGroup == 1 ==>
              && NeighbourOf(group, sbPerGroup).corr == 0
              && (NeighbourOf(group, sbPerGroup).group == group - 1 <==> group == 319 || group > 321)
    ensures sbPerGroup != 10 && sbPerGroup != 1 ==> NeighbourOf(group, sbPerGroup) == Neighbour(group + 1, 0)
  {
  }

  /** The neighbour's shift agrees with the group's own shift everywhere in
      the rule table except in the final fall-back branch for 10-subband
      groups beyond 37. */
  lemma NeighbourCorrMatchesOwn(group: int, sbPerGroup: int)
    ensures NeighbourOf(group, sbPerGroup).corr == OwnCorr(group, sbPerGroup) <==>
              !(sbPerGroup == 10 && group > 37)
  {
  }

  /** The group 32 boundary case: its own centre is shifted, and the
      spacing comes from group 31, also shifted. */
  lemma Group32Boundary()
    ensures OwnCorr(32, 10) == 1
    ensures NeighbourOf(32, 10) == Neighbour(31, 1)
  {
  }

  /** Every table position `compute_freqs` reads, in evaluation order: the
      group's own centre, then the neighbour's. */
  function TableIndices(group: int, sbPerGroup: int): seq<int> {
    var nb := NeighbourOf(group, sbPerGroup);
    CentreIndices(group, sbPerGroup, OwnCorr(group, sbPerGroup)) + CentreIndices(nb.group, sbPerGroup, nb.corr)
  }

  /** For a group index parsed from a name (never negative) and a positive
      group size, no position read is negative, so numpy's wrap-around
      from the end of the table is never used. */
  lemma {:induction false} TableIndicesNonNegative(group: int, sbPerGroup: int)
    requires group >= 0 && sbPerGroup >= 1
    ensures forall k :: 0 <= k < |TableIndices(group, sbPerGroup)| ==> TableIndices(group, sbPerGroup)[k] >= 0
  {
    var nb := NeighbourOf(group, sbPerGroup);
    assert nb.group >= 0;
    CentreIndicesNonNegative(group, sbPerGroup, OwnCorr(group, sbPerGroup));
    CentreIndicesNonNegative(nb.group, sbPerGroup, nb.corr);
  }

  lemma CentreIndicesNonNegative(group: int, sbPerGroup: int, corr: int)
    requires group >= 0 && sbPerGroup >= 1 && corr >= 0
    ensures forall k :: 0 <= k < |CentreIndices(group, sbPerGroup, corr)| ==> CentreIndices(group, sbPerGroup, corr)[k] >= 0
  {
    assert group * sbPerGroup >= 0;
  }

  /** A group size of 0 (a name such as `_SBgr5-0_`) makes the first read
      position -1, which numpy silently maps to the table's last entry. */
  lemma ZeroGroupSizeReadsLastEntry(table: seq<real>, group: int)
    requires |table| > 0
    ensures TableIndices(group, 0)[0] == -1
    ensures At(table, TableIndices(group, 0)[0]) == Ok(table[|table| - 1])
  {
  }
}
