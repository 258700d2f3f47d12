/** The evenly spaced channel grid of a subband group (the second half of
    `compute_freqs` in scripts/check_frequencies.py). Frequencies are exact
    reals, so `np.linspace` has no rounding here. */
module ChannelGrid {
  import opened Wrappers
  import opened Reals
  import opened CentralFrequency

  /** `np.linspace(start, stop, num)` with the end point included. */
  function Linspace(start: real, stop: real, num: nat): (r: seq<real>)
    ensures |r| == num
    ensures num >= 1 ==> r[0] == start
    ensures num >= 2 ==> r[num - 1] == stop
    ensures num >= 2 ==> forall i, j :: 0 <= i && j == i + 1 && j < num ==> r[j] - r[i] == (stop - start) / (num - 1) as real
  {
    if num <= 1 then seq(num, i => start)
    else
      var step := (stop - start) / (num - 1) as real;
      var r := seq(num, i requires 0 <= i < num => start + (i as real) * step);
      assert r[num - 1] == start + ((num - 1) as real) * step;
      r
  }

  /** `channels_per_group/2 - 0.5` under true division (Python 3, and the
      semantics this model fixes). */
  function ChannelShift(channels: nat): (h: real)
    ensures 2.0 * h == channels as real - 1.0
    ensures channels >= 1 ==> h >= 0.0
  {
    channels as real / 2.0 - 0.5
  }

  /** The same expression under Python 2, where `/` on two integers floors. */
  function ChannelShiftPy2(channels: nat): real {
    (channels / 2) as real - 0.5
  }

  /** The two readings agree exactly for even channel counts; for odd counts
      the Python 2 shift is half a step shorter. */
  lemma ShiftReadingsAgreeIffEven(channels: nat)
    ensures ChannelShift(channels) == ChannelShiftPy2(channels) <==> channels % 2 == 0
    ensures channels % 2 == 1 ==> ChannelShiftPy2(channels) == ChannelShift(channels) - 0.5
  {
  }

  /** The grid of `channels` points centred on `centre`, from
      `centre - shift * step` to `centre + shift * step`. */
  function CentredGrid(centre: real, step: real, channels: nat): (g: seq<real>)
    ensures |g| == channels
  {
    var shift := ChannelShift(channels);
    Linspace(centre - shift * step, centre + shift * step, channels)
  }

  /** How many steps point i of a `channels`-point centred grid sits from
      the centre: negative below it, positive above it. */
  function Offset(channels: nat, i: int): real {
    i as real - (channels as real - 1.0) / 2.0
  }

  /** Point i of the grid sits `Offset(channels, i)` steps from the centre,
      so consecutive points are exactly one step apart. */
  lemma CentredGridPoints(centre: real, step: real, channels: nat)
    ensures forall i :: 0 <= i < channels ==>
              CentredGrid(centre, step, channels)[i] == centre + Offset(channels, i) * step
    ensures forall i, j :: 0 <= i && j == i + 1 && j < channels ==>
              CentredGrid(centre, step, channels)[j] - CentredGrid(centre, step, channels)[i] == step
  {
    var g := CentredGrid(centre, step, channels);
    var k := channels as real;
    var h := (k - 1.0) / 2.0;
    if channels >= 2 {
      var lo := centre - ChannelShift(channels) * step;
      var hi := centre + ChannelShift(channels) * step;
      assert (channels - 1) as real == k - 1.0;
      assert (hi - lo) / (channels - 1) as real == step by {
        SpanOverGaps(centre, step, k);
      }
      forall i | 0 <= i < channels
        ensures g[i] == centre + Offset(channels, i) * step
      {
        assert g[i] == lo + (i as real) * step;
        Regroup(g[i], centre, step, i as real, h);
      }
    } else if channels == 1 {
      assert g[0] == centre;
    }
  }

  /** The two ends of the grid are `channels - 1` steps apart. */
  lemma SpanOverGaps(centre: real, step: real, k: real)
    requires k >= 2.0
    ensures ((centre + (k / 2.0 - 0.5) * step) - (centre - (k / 2.0 - 0.5) * step)) / (k - 1.0) == step
  {
    var x := k / 2.0 - 0.5;
    assert (centre + x * step) - (centre - x * step) == 2.0 * x * step;
    assert 2.0 * x == k - 1.0;
    assert 2.0 * x * step == (k - 1.0) * step;
  }

  lemma Regroup(u: real, c: real, s: real, x: real, h: real)
    requires u == (c - h * s) + x * s
    ensures u == c + (x - h) * s
  {
    assert (x - h) * s == x * s - h * s;
  }

  /** The grid is symmetric about its centre: points i and channels-1-i
      average to the centre. */
  lemma CentredGridSymmetric(centre: real, step: real, channels: nat)
    ensures forall i :: 0 <= i < channels ==>
              CentredGrid(centre, step, channels)[i] + CentredGrid(centre, step, channels)[channels - 1 - i] == 2.0 * centre
  {
    CentredGridPoints(centre, step, channels);
    ProgressionSymmetric(CentredGrid(centre, step, channels), centre, step);
  }

  lemma ProgressionSymmetric(g: seq<real>, centre: real, step: real)
    requires forall i :: 0 <= i < |g| ==> g[i] == centre + Offset(|g|, i) * step
    ensures forall i :: 0 <= i < |g| ==> g[i] + g[|g| - 1 - i] == 2.0 * centre
  {
    forall i | 0 <= i < |g|
      ensures g[i] + g[|g| - 1 - i] == 2.0 * centre
    {
      MirrorPoints(g[i], g[|g| - 1 - i], centre, step, Offset(|g|, i), Offset(|g|, |g| - 1 - i));
    }
  }

  lemma MirrorPoints(u: real, v: real, c: real, s: real, x: real, y: real)
    requires x + y == 0.0
    requires u == c + x * s && v == c + y * s
    ensures u + v == 2.0 * c
  {
    assert x * s + y * s == (x + y) * s;
  }

  /** The mean of a non-empty grid is its centre. */
  lemma CentredGridMean(centre: real, step: real, channels: nat)
    requires channels >= 1
    ensures Mean(CentredGrid(centre, step, channels)) == centre
  {
    CentredGridPoints(centre, step, channels);
    MeanOfCentredProgression(CentredGrid(centre, step, channels), centre, step);
  }

  /** Any sequence laid out symmetrically about a centre has that centre as
      its mean. */
  lemma MeanOfCentredProgression(g: seq<real>, centre: real, step: real)
    requires |g| >= 1
    requires forall i :: 0 <= i < |g| ==> g[i] == centre + Offset(|g|, i) * step
    ensures Mean(g) == centre
  {
    var k := |g| as real;
    var h := (k - 1.0) / 2.0;
    var a := centre - h * step;
    forall i | 0 <= i < |g|
      ensures g[i] == a + (i as real) * step
    {
      Ungroup(g[i], centre, step, i as real, h);
    }
    SumArithmetic(g, a, step);
    SumOfCentredProgression(Sum(g), centre, step, k);
  }

  lemma Ungroup(u: real, c: real, s: real, x: real, h: real)
    requires u == c + (x - h) * s
    ensures u == (c - h * s) + x * s
  {
    assert (x - h) * s == x * s - h * s;
  }

  lemma SumOfCentredProgression(sum: real, centre: real, step: real, k: real)
    requires k >= 1.0
    requires sum == k * (centre - (k - 1.0) / 2.0 * step) + step * (k * (k - 1.0) / 2.0)
    ensures sum / k == centre
  {
    assert k * (centre - (k - 1.0) / 2.0 * step) == k * centre - step * (k * (k - 1.0) / 2.0);
    assert sum == k * centre;
  }

  /** A non-negative step gives an ascending grid. */
  lemma CentredGridAscending(centre: real, step: real, channels: nat)
    requires step >= 0.0
    ensures forall i, j :: 0 <= i <= j < channels ==>
              CentredGrid(centre, step, channels)[i] <= CentredGrid(centre, step, channels)[j]
  {
    CentredGridPoints(centre, step, channels);
    ProgressionAscending(CentredGrid(centre, step, channels), centre, step);
  }

  lemma ProgressionAscending(g: seq<real>, centre: real, step: real)
    requires step >= 0.0
    requires forall i :: 0 <= i < |g| ==> g[i] == centre + Offset(|g|, i) * step
    ensures forall i, j :: 0 <= i <= j < |g| ==> g[i] <= g[j]
  {
    forall i, j | 0 <= i <= j < |g|
      ensures g[i] <= g[j]
    {
      MonotoneStep(g[i], g[j], centre, step, Offset(|g|, i), Offset(|g|, j));
    }
  }

  lemma MonotoneStep(u: real, v: real, c: real, s: real, x: real, y: real)
    requires x <= y && s >= 0.0
    requires u == c + x * s && v == c + y * s
    ensures u <= v
  {
    assert v - u == (y - x) * s;
    assert (y - x) * s >= 0.0;
  }

  /** `compute_freqs(group, sbPerGroup, channels)`: the group's own centre,
      the neighbour's centre from the rule table, the step
      `|centre - neighbour| / channels`, and the centred grid. With no
      channels numpy divides by zero and `linspace` returns an empty array,
      which the model reproduces without the division. */
  function ComputeFreqs(table: seq<real>, group: int, sbPerGroup: int, channels: nat): (r: Result<seq<real>, FreqError>)
    ensures r.Ok? ==> |r.value| == channels
  {
    var centre :- CentralFreq(table, group, sbPerGroup, OwnCorr(group, sbPerGroup));
    var nb := NeighbourOf(group, sbPerGroup);
    var centreAux :- CentralFreq(table, nb.group, sbPerGroup, nb.corr);
    var step := if channels == 0 then 0.0 else Abs(centre - centreAux) / channels as real;
    Ok(CentredGrid(centre, step, channels))
  }

  /** The channel step `compute_freqs` derives: the distance between the two
      centres spread over the channels. */
  function ChannelStep(table: seq<real>, group: int, sbPerGroup: int, channels: nat): (step: real)
    requires channels >= 1
    requires CentralFreq(table, group, sbPerGroup, OwnCorr(group, sbPerGroup)).Ok?
    requires CentralFreq(table, NeighbourOf(group, sbPerGroup).group, sbPerGroup, NeighbourOf(group, sbPerGroup).corr).Ok?
    ensures step >= 0.0
    ensures var nb := NeighbourOf(group, sbPerGroup);
            step * channels as real ==
              Abs(CentralFreq(table, group, sbPerGroup, OwnCorr(group, sbPerGroup)).value
                  - CentralFreq(table, nb.group, sbPerGroup, nb.corr).value)
  {
    var nb := NeighbourOf(group, sbPerGroup);
    Abs(CentralFreq(table, group, sbPerGroup, OwnCorr(group, sbPerGroup)).value
        - CentralFreq(table, nb.group, sbPerGroup, nb.corr).value) / channels as real
  }

  /** `compute_freqs` fails exactly when one of the table positions it
      reads is not a valid Python index. */
  lemma ComputeFreqsOkIff(table: seq<real>, group: int, sbPerGroup: int, channels: nat)
    ensures ComputeFreqs(table, group, sbPerGroup, channels).Ok? <==>
              forall k :: 0 <= k < |TableIndices(group, sbPerGroup)| ==> ValidIndex(table, TableIndices(group, sbPerGroup)[k])
  {
    var nb := NeighbourOf(group, sbPerGroup);
    var own := CentreIndices(group, sbPerGroup, OwnCorr(group, sbPerGroup));
    var aux := CentreIndices(nb.group, sbPerGroup, nb.corr);
    CentralFreqOkIff(table, group, sbPerGroup, OwnCorr(group, sbPerGroup));
    CentralFreqOkIff(table, nb.group, sbPerGroup, nb.corr);
    assert TableIndices(group, sbPerGroup) == own + aux;
    assert forall k :: 0 <= k < |own| ==> (own + aux)[k] == own[k];
    assert forall k :: 0 <= k < |aux| ==> (own + aux)[|own| + k] == aux[k];
  }

  /** The computed grid has one point per channel, consecutive points one
      channel step apart, and its mean is the group's own centre. */
  lemma ComputeFreqsGrid(table: seq<real>, group: int, sbPerGroup: int, channels: nat)
    requires channels >= 1
    requires ComputeFreqs(table, group, sbPerGroup, channels).Ok?
    ensures CentralFreq(table, group, sbPerGroup, OwnCorr(group, sbPerGroup)).Ok?
    ensures CentralFreq(table, NeighbourOf(group, sbPerGroup).group, sbPerGroup, NeighbourOf(group, sbPerGroup).corr).Ok?
    ensures var g := ComputeFreqs(table, group, sbPerGroup, channels).value;
            && |g| == channels
            && (forall i, j :: 0 <= i && j == i + 1 && j < channels ==> g[j] - g[i] == ChannelStep(table, group, sbPerGroup, channels))
            && Mean(g) == CentralFreq(table, group, sbPerGroup, OwnCorr(group, sbPerGroup)).value
            && (forall i, j :: 0 <= i <= j < channels ==> g[i] <= g[j])
  {
    var centre := CentralFreq(table, group, sbPerGroup, OwnCorr(group, sbPerGroup)).value;
    var step := ChannelStep(table, group, sbPerGroup, channels);
    assert ComputeFreqs(table, group, sbPerGroup, channels).value == CentredGrid(centre, step, channels);
    CentredGridPoints(centre, step, channels);
    CentredGridMean(centre, step, channels);
    CentredGridAscending(centre, step, channels);
  }

  /** On an evenly spaced reference table (entries d apart) the channels of
      a group span exactly its subbands, `channels * step == sbPerGroup * |d|`,
      everywhere the rule table applies the same shift to both centres;
      in the fall-back branch for 10-subband groups beyond 37 the span is
      11 subbands instead of 10 (`SpanSubbands`). */
  lemma ComputeFreqsOnLinearTable(table: seq<real>, a: real, d: real, group: int, sbPerGroup: int, channels: nat)
    requires Linear(table, a, d)
    requires channels >= 1 && sbPerGroup >= 1 && group >= 0
    requires forall k :: 0 <= k < |TableIndices(group, sbPerGroup)| ==> TableIndices(group, sbPerGroup)[k] < |table|
    ensures ComputeFreqs(table, group, sbPerGroup, channels).Ok?
    ensures ChannelStep(table, group, sbPerGroup, channels) * channels as real == SpanSubbands(group, sbPerGroup) as real * Abs(d)
  {
    var span := LinearNeighbourGap(table, a, d, group, sbPerGroup);
    StepOfNeighbourGap(table, d, group, sbPerGroup, channels, span);
  }

  /** How many table steps separate a group's centre from its neighbour's
      on an evenly spaced table: the group size, except 11 in the fall-back
      branch for 10-subband groups beyond 37. */
  function SpanSubbands(group: int, sbPerGroup: int): int {
    if sbPerGroup == 10 && group > 37 then 11 else sbPerGroup
  }

  /** Two centres `span` table steps apart give the grid, with the channel
      step spreading that many subbands over the channels. */
  lemma StepOfNeighbourGap(table: seq<real>, d: real, group: int, sbPerGroup: int, channels: nat, span: int)
    requires channels >= 1
    requires CentralFreq(table, group, sbPerGroup, OwnCorr(group, sbPerGroup)).Ok?
    requires CentralFreq(table, NeighbourOf(group, sbPerGroup).group, sbPerGroup, NeighbourOf(group, sbPerGroup).corr).Ok?
    requires CentralFreq(table, group, sbPerGroup, OwnCorr(group, sbPerGroup)).value
             - CentralFreq(table, NeighbourOf(group, sbPerGroup).group, sbPerGroup, NeighbourOf(group, sbPerGroup).corr).value
             == span as real * d
    requires sbPerGroup >= 1
    requires span == SpanSubbands(group, sbPerGroup) || span == -SpanSubbands(group, sbPerGroup)
    ensures ChannelStep(table, group, sbPerGroup, channels) * channels as real == SpanSubbands(group, sbPerGroup) as real * Abs(d)
  {
    StepOfGap(table, d, group, sbPerGroup, channels, span, SpanSubbands(group, sbPerGroup) as real);
  }

  /** The channel step spreads a gap of `span` table steps over the
      channels. */
  lemma StepOfGap(table: seq<real>, d: real, group: int, sbPerGroup: int, channels: nat, span: int, n: real)
    requires channels >= 1
    requires n >= 0.0 && (span as real == n || span as real == -n)
    requires CentralFreq(table, group, sbPerGroup, OwnCorr(group, sbPerGroup)).Ok?
    requires CentralFreq(table, NeighbourOf(group, sbPerGroup).group, sbPerGroup, NeighbourOf(group, sbPerGroup).corr).Ok?
    requires CentralFreq(table, group, sbPerGroup, OwnCorr(group, sbPerGroup)).value
             - CentralFreq(table, NeighbourOf(group, sbPerGroup).group, sbPerGroup, NeighbourOf(group, sbPerGroup).corr).value
             == span as real * d
    ensures ChannelStep(table, group, sbPerGroup, channels) * channels as real == n * Abs(d)
  {
    var nb := NeighbourOf(group, sbPerGroup);
    var c1 := CentralFreq(table, group, sbPerGroup, OwnCorr(group, sbPerGroup)).value;
    var c2 := CentralFreq(table, nb.group, sbPerGroup, nb.corr).value;
    StepSpan(c1, c2, span, d, channels as real, n);
  }

  /** On an evenly spaced table the group's centre and its neighbour's are
      `span` table steps apart, with |span| the group size except in the
      fall-back branch, where it is 11. */
  lemma LinearNeighbourGap(table: seq<real>, a: real, d: real, group: int, sbPerGroup: int) returns (span: int)
    requires Linear(table, a, d)
    requires sbPerGroup >= 1 && group >= 0
    requires forall k :: 0 <= k < |TableIndices(group, sbPerGroup)| ==> TableIndices(group, sbPerGroup)[k] < |table|
    ensures CentralFreq(table, group, sbPerGroup, OwnCorr(group, sbPerGroup)).Ok?
    ensures CentralFreq(table, NeighbourOf(group, sbPerGroup).group, sbPerGroup, NeighbourOf(group, sbPerGroup).corr).Ok?
    ensures CentralFreq(table, group, sbPerGroup, OwnCorr(group, sbPerGroup)).value
            - CentralFreq(table, NeighbourOf(group, sbPerGroup).group, sbPerGroup, NeighbourOf(group, sbPerGroup).corr).value
            == span as real * d
    ensures span == SpanSubbands(group, sbPerGroup) || span == -SpanSubbands(group, sbPerGroup)
  {
    var own := OwnCorr(group, sbPerGroup);
    var nb := NeighbourOf(group, sbPerGroup);
    var ixOwn := CentreIndices(group, sbPerGroup, own);
    var ixAux := CentreIndices(nb.group, sbPerGroup, nb.corr);
    TableIndicesNonNegative(group, sbPerGroup);
    assert TableIndices(group, sbPerGroup) == ixOwn + ixAux;
    IndicesOfBothCentres(table, ixOwn, ixAux);
    span := LinearCentreGap(table, a, d, group, sbPerGroup, own, nb.group, nb.corr);
    NeighbourSpan(group, sbPerGroup, span);
  }

  /** The neighbour's shifted start is `SpanSubbands` positions away from
      the group's own. */
  lemma NeighbourSpan(group: int, sbPerGroup: int, m: int)
    requires m == (group * sbPerGroup + OwnCorr(group, sbPerGroup))
                  - (NeighbourOf(group, sbPerGroup).group * sbPerGroup + NeighbourOf(group, sbPerGroup).corr)
    ensures m == SpanSubbands(group, sbPerGroup) || m == -SpanSubbands(group, sbPerGroup)
  {
    NeighbourCorrMatchesOwn(group, sbPerGroup);
    GroupOffset(group, sbPerGroup, NeighbourOf(group, sbPerGroup).group);
  }

  /** Two centres m table steps apart, with |m| == n, give a channel step
      that spreads n steps over the k channels. */
  lemma StepSpan(c1: real, c2: real, m: int, d: real, k: real, n: real)
    requires c1 - c2 == m as real * d
    requires m as real == n || m as real == -n
    requires n >= 0.0 && k > 0.0
    ensures Abs(c1 - c2) / k * k == n * Abs(d)
  {
    AbsOfMultiple(m, d, n);
    DivMulCancel(Abs(c1 - c2), k);
  }

  /** On an evenly spaced table two centres are as far apart as their
      shifted group starts, in table steps. */
  lemma LinearCentreGap(table: seq<real>, a: real, d: real, g1: int, sbPerGroup: int, c1: int, g2: int, c2: int) returns (m: int)
    requires Linear(table, a, d)
    requires sbPerGroup >= 1
    requires forall k :: 0 <= k < |CentreIndices(g1, sbPerGroup, c1)| ==> 0 <= CentreIndices(g1, sbPerGroup, c1)[k] < |table|
    requires forall k :: 0 <= k < |CentreIndices(g2, sbPerGroup, c2)| ==> 0 <= CentreIndices(g2, sbPerGroup, c2)[k] < |table|
    ensures CentralFreq(table, g1, sbPerGroup, c1).Ok? && CentralFreq(table, g2, sbPerGroup, c2).Ok?
    ensures m == (g1 * sbPerGroup + c1) - (g2 * sbPerGroup + c2)
    ensures CentralFreq(table, g1, sbPerGroup, c1).value - CentralFreq(table, g2, sbPerGroup, c2).value == m as real * d
  {
    CentralFreqOfLinearTable(table, a, d, g1, sbPerGroup, c1);
    CentralFreqOfLinearTable(table, a, d, g2, sbPerGroup, c2);
    var x1 := g1 * sbPerGroup + c1;
    var x2 := g2 * sbPerGroup + c2;
    CentreGap(a, d, x1, x2, sbPerGroup);
    m := x1 - x2;
  }

  lemma CentreGap(a: real, d: real, x1: int, x2: int, n: int)
    ensures LinearCentre(a, d, x1, n) - LinearCentre(a, d, x2, n) == (x1 - x2) as real * d
  {
    var h := (n as real - 1.0) / 2.0;
    assert (x1 as real + h) * d - (x2 as real + h) * d == (x1 as real - x2 as real) * d;
  }

  lemma AbsOfMultiple(m: int, d: real, n: real)
    requires m as real == n || m as real == -n
    requires n >= 0.0
    ensures Abs(m as real * d) == n * Abs(d)
  {
  }

  lemma DivMulCancel(x: real, k: real)
    requires k > 0.0
    ensures x / k * k == x
  {
  }

  /** Both halves of a concatenated index list are inside the table when
      the whole list is. */
  lemma IndicesOfBothCentres(table: seq<real>, xs: seq<int>, ys: seq<int>)
    requires forall k :: 0 <= k < |xs + ys| ==> 0 <= (xs + ys)[k] < |table|
    ensures forall k :: 0 <= k < |xs| ==> 0 <= xs[k] < |table|
    ensures forall k :: 0 <= k < |ys| ==> 0 <= ys[k] < |table|
  {
    forall k | 0 <= k < |xs|
      ensures 0 <= xs[k] < |table|
    {
      assert (xs + ys)[k] == xs[k];
    }
    forall k | 0 <= k < |ys|
      ensures 0 <= ys[k] < |table|
    {
      assert (xs + ys)[|xs| + k] == ys[k];
    }
  }

  lemma GroupOffset(group: int, sbPerGroup: int, other: int)
    requires other == group + 1 || other == group - 1
    ensures other == group + 1 ==> other * sbPerGroup == group * sbPerGroup + sbPerGroup
    ensures other == group - 1 ==> other * sbPerGroup == group * sbPerGroup - sbPerGroup
  {
  }
}
