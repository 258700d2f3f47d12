/** Correcting the frequency metadata of one Measurement Set
    (scripts/check_frequencies.py: `get_info`, `prepare_freqs`,
    `get_channels_per_group`, `correct_ms`). The dataset is its name plus
    its spectral window; the result is the spectral window after the
    writes, or the error that aborted the correction. */
module CheckFrequencies {
  import opened Wrappers
  import opened Reals
  import opened SpectralWindows
  import opened NameResolver
  import opened CentralFrequency
  import opened ChannelGrid

  /** `get_channels_per_group`: the length of CHAN_FREQ. */
  function ChannelsPerGroup(sw: SpectralWindow): (n: nat)
    ensures n == |sw.chanFreq|
  {
    |ReadMs(sw).frequencies|
  }

  /** The (group, sbPerGroup) pair `prepare_freqs` passes on: explicit
      values win, but the name is parsed (and must resolve) whenever either
      one is missing. */
  function ResolveGroup(name: string, group: Option<int>, sbPerGroup: Option<int>): (r: Result<(int, int), FreqError>)
    ensures group.Some? && sbPerGroup.Some? ==> r == Ok((group.value, sbPerGroup.value))
    ensures r.Err? <==> (group.None? || sbPerGroup.None?) && GetGroupSb(name).None?
    ensures r.Err? ==> r.error == UnresolvableName
    ensures r.Ok? && group.None? ==> r.value.0 == GetGroupSb(name).value.group
    ensures r.Ok? && sbPerGroup.None? ==> r.value.1 == GetGroupSb(name).value.sbPerGroup
    ensures r.Ok? && group.Some? ==> r.value.0 == group.value
    ensures r.Ok? && sbPerGroup.Some? ==> r.value.1 == sbPerGroup.value
  {
    if group.Some? && sbPerGroup.Some? then Ok((group.value, sbPerGroup.value))
    else
      match GetGroupSb(name)
      case None => Err(UnresolvableName)
      case Some(gs) =>
        Ok((if group.Some? then group.value else gs.group,
            if sbPerGroup.Some? then sbPerGroup.value else gs.sbPerGroup))
  }

  /** `prepare_freqs`: the computed grid for the dataset. */
  function PrepareFreqs(table: seq<real>, name: string, sw: SpectralWindow,
                        group: Option<int>, sbPerGroup: Option<int>): (r: Result<seq<real>, FreqError>)
    ensures r.Ok? ==> |r.value| == |sw.chanFreq|
  {
    var gs :- ResolveGroup(name, group, sbPerGroup);
    ComputeFreqs(table, gs.0, gs.1, ChannelsPerGroup(sw))
  }

  /** The grid depends on the dataset only through the resolved group and
      the channel count: two datasets with equally many channels get the
      same grid, and with both overrides given the name plays no part. */
  lemma PrepareFreqsDependsOnlyOnShape(table: seq<real>, name1: string, name2: string,
                                       sw1: SpectralWindow, sw2: SpectralWindow,
                                       group: Option<int>, sbPerGroup: Option<int>)
    requires |sw1.chanFreq| == |sw2.chanFreq|
    ensures PrepareFreqs(table, name1, sw1, group, sbPerGroup) == PrepareFreqs(table, name1, sw2, group, sbPerGroup)
    ensures group.Some? && sbPerGroup.Some? ==>
              PrepareFreqs(table, name1, sw1, group, sbPerGroup) == PrepareFreqs(table, name2, sw2, group, sbPerGroup)
  {
  }

  /** Once the group is resolved, the grid is the one `compute_freqs`
      gives for the dataset's channel count. */
  lemma PrepareFreqsOfResolved(table: seq<real>, name: string, sw: SpectralWindow,
                               group: Option<int>, sbPerGroup: Option<int>, g: int, n: int)
    requires ResolveGroup(name, group, sbPerGroup) == Ok((g, n))
    ensures PrepareFreqs(table, name, sw, group, sbPerGroup) == ComputeFreqs(table, g, n, |sw.chanFreq|)
  {
  }

  /** Which derived fields to correct (`-w`, `-r`, `-t`). */
  datatype Corrections = Corrections(widths: bool, refFreq: bool, totalBandwidth: bool)
  {
    predicate Any() {
      widths || refFreq || totalBandwidth
    }
  }

  /** `widths_new`: each channel's width is the spacing to the next channel;
      the last channel repeats the last spacing. */
  function EdgeWidths(spacing: seq<real>): (w: seq<real>)
    requires |spacing| > 0
    ensures |w| == |spacing| + 1
    ensures forall i :: 0 <= i < |spacing| ==> w[i] == spacing[i]
    ensures w[|spacing|] == spacing[|spacing| - 1]
  {
    spacing + [spacing[|spacing| - 1]]
  }

  /** The widths correction of `correct_ms`, which fails with an
      IndexError (`spacing[-1]` on an empty array) for a single channel. */
  function NewWidths(fix: Corrections, r: Reading): (w: Result<Option<seq<real>>, FreqError>)
    ensures w.Err? <==> fix.widths && |r.spacing| == 0
    ensures w.Ok? ==> (w.value.Some? <==> fix.widths)
    ensures w.Ok? && fix.widths ==> w.value.value == EdgeWidths(r.spacing)
  {
    if !fix.widths then Ok(None)
    else if |r.spacing| == 0 then Err(NoSpacing)
    else Ok(Some(EdgeWidths(r.spacing)))
  }

  /** `correct_ms`: write the computed grid; if any derived field is
      requested, read the window back and write the grid again together
      with the requested fields. */
  function CorrectMs(table: seq<real>, name: string, sw: SpectralWindow, fix: Corrections,
                     group: Option<int>, sbPerGroup: Option<int>): (r: Result<SpectralWindow, FreqError>)
    requires WellFormed(sw)
    ensures r.Ok? ==> PrepareFreqs(table, name, sw, group, sbPerGroup).Ok?
    ensures r.Ok? ==> r.value.chanFreq == PrepareFreqs(table, name, sw, group, sbPerGroup).value
    ensures r.Ok? && fix.widths ==>
              && |r.value.chanFreq| >= 2
              && r.value.chanWidth == EdgeWidths(Spacing(r.value.chanFreq))
              && r.value.effectiveBw == r.value.chanWidth
              && r.value.resolution == r.value.chanWidth
    ensures r.Ok? && !fix.widths ==>
              r.value.chanWidth == sw.chanWidth && r.value.effectiveBw == sw.effectiveBw && r.value.resolution == sw.resolution
    ensures r.Ok? ==> r.value.refFrequency == if fix.refFreq then Mean(r.value.chanFreq) else sw.refFrequency
    ensures r.Ok? ==> r.value.totalBandwidth == if fix.totalBandwidth then Sum(sw.chanWidth) else sw.totalBandwidth
  {
    var freqs :- PrepareFreqs(table, name, sw, group, sbPerGroup);
    var sw1 := WriteMs(sw, freqs, None, None, None);
    if !fix.Any() then Ok(sw1)
    else
      var rd := ReadMs(sw1);
      var widthsNew :- NewWidths(fix, rd);
      var refNew := if fix.refFreq then Some(Mean(rd.frequencies)) else None;
      var tbNew := if fix.totalBandwidth then Some(Sum(rd.widths)) else None;
      Ok(WriteMs(sw1, freqs, widthsNew, refNew, tbNew))
  }

  /** The window `correct_ms` leaves in the Measurement Set, whether or
      not the call raises. The first `write_ms` stores the grid before the
      widths step can fail, so a single-channel dataset corrected with
      widths keeps its new CHAN_FREQ although the call ends in an
      IndexError; a failure while preparing the grid writes nothing. */
  function WindowAfterCorrectMs(table: seq<real>, name: string, sw: SpectralWindow, fix: Corrections,
                                group: Option<int>, sbPerGroup: Option<int>): (w: SpectralWindow)
    requires WellFormed(sw)
    ensures CorrectMs(table, name, sw, fix, group, sbPerGroup).Ok? ==>
              w == CorrectMs(table, name, sw, fix, group, sbPerGroup).value
    ensures PrepareFreqs(table, name, sw, group, sbPerGroup).Err? ==> w == sw
    ensures PrepareFreqs(table, name, sw, group, sbPerGroup).Ok? && CorrectMs(table, name, sw, fix, group, sbPerGroup).Err? ==>
              && fix.widths && |sw.chanFreq| == 1
              && w.chanFreq == PrepareFreqs(table, name, sw, group, sbPerGroup).value
              && w.chanWidth == sw.chanWidth && w.effectiveBw == sw.effectiveBw && w.resolution == sw.resolution
              && w.refFrequency == sw.refFrequency && w.totalBandwidth == sw.totalBandwidth
  {
    match CorrectMs(table, name, sw, fix, group, sbPerGroup)
    case Ok(corrected) => corrected
    case Err(_) =>
      match PrepareFreqs(table, name, sw, group, sbPerGroup)
      case Ok(freqs) => WriteMs(sw, freqs, None, None, None)
      case Err(_) => sw
  }

  /** The correction fails exactly when the grid cannot be computed, or
      when widths are requested for a single-channel dataset. */
  lemma CorrectMsErrIff(table: seq<real>, name: string, sw: SpectralWindow, fix: Corrections,
                        group: Option<int>, sbPerGroup: Option<int>)
    requires WellFormed(sw)
    ensures CorrectMs(table, name, sw, fix, group, sbPerGroup).Err? <==>
              PrepareFreqs(table, name, sw, group, sbPerGroup).Err? || (fix.widths && |sw.chanFreq| == 1)
  {
  }

  /** A correction keeps the window well formed: the grid has one point per
      original channel and the widths stay aligned with it. */
  lemma CorrectMsKeepsWellFormed(table: seq<real>, name: string, sw: SpectralWindow, fix: Corrections,
                                 group: Option<int>, sbPerGroup: Option<int>)
    requires WellFormed(sw)
    requires CorrectMs(table, name, sw, fix, group, sbPerGroup).Ok?
    ensures WellFormed(CorrectMs(table, name, sw, fix, group, sbPerGroup).value)
    ensures |CorrectMs(table, name, sw, fix, group, sbPerGroup).value.chanFreq| == |sw.chanFreq|
  {
  }

  /** Every table position the group needs exists, and widths are
      requested only for two channels or more: the correction succeeds on
      the grid `compute_freqs` gives for the resolved group. */
  lemma CorrectMsOkOfIndices(table: seq<real>, name: string, sw: SpectralWindow, fix: Corrections,
                             group: Option<int>, sbPerGroup: Option<int>, g: int, n: int)
    requires WellFormed(sw) && (fix.widths ==> |sw.chanFreq| >= 2)
    requires ResolveGroup(name, group, sbPerGroup) == Ok((g, n))
    requires forall k :: 0 <= k < |TableIndices(g, n)| ==> ValidIndex(table, TableIndices(g, n)[k])
    ensures ComputeFreqs(table, g, n, |sw.chanFreq|).Ok?
    ensures CorrectMs(table, name, sw, fix, group, sbPerGroup).Ok?
    ensures CorrectMs(table, name, sw, fix, group, sbPerGroup).value.chanFreq == ComputeFreqs(table, g, n, |sw.chanFreq|).value
  {
    ComputeFreqsOkIff(table, g, n, |sw.chanFreq|);
    PrepareFreqsOfResolved(table, name, sw, group, sbPerGroup, g, n);
    CorrectMsErrIff(table, name, sw, fix, group, sbPerGroup);
  }

  /** When every table position the group needs exists, the correction
      succeeds and the corrected reference frequency is the group's own
      centre: the computed grid is centred on it. */
  lemma CorrectedRefFrequencyIsCentre(table: seq<real>, name: string, sw: SpectralWindow, fix: Corrections,
                                      group: Option<int>, sbPerGroup: Option<int>, g: int, n: int)
    requires WellFormed(sw) && fix.refFreq && (fix.widths ==> |sw.chanFreq| >= 2)
    requires ResolveGroup(name, group, sbPerGroup) == Ok((g, n))
    requires forall k :: 0 <= k < |TableIndices(g, n)| ==> ValidIndex(table, TableIndices(g, n)[k])
    ensures CorrectMs(table, name, sw, fix, group, sbPerGroup).Ok?
    ensures CentralFreq(table, g, n, OwnCorr(g, n)).Ok?
    ensures CorrectMs(table, name, sw, fix, group, sbPerGroup).value.refFrequency ==
              CentralFreq(table, g, n, OwnCorr(g, n)).value
  {
    CorrectMsOkOfIndices(table, name, sw, fix, group, sbPerGroup, g, n);
    ComputeFreqsGrid(table, g, n, |sw.chanFreq|);
  }

  /** With at least two channels and every table position the group needs,
      the width correction succeeds and is uniform: every channel gets the
      channel step of the grid, the last one included. */
  lemma CorrectedWidthsUniform(table: seq<real>, name: string, sw: SpectralWindow, fix: Corrections,
                               group: Option<int>, sbPerGroup: Option<int>, g: int, n: int)
    requires WellFormed(sw) && fix.widths && |sw.chanFreq| >= 2
    requires ResolveGroup(name, group, sbPerGroup) == Ok((g, n))
    requires forall k :: 0 <= k < |TableIndices(g, n)| ==> ValidIndex(table, TableIndices(g, n)[k])
    ensures CorrectMs(table, name, sw, fix, group, sbPerGroup).Ok?
    ensures CentralFreq(table, g, n, OwnCorr(g, n)).Ok?
    ensures CentralFreq(table, NeighbourOf(g, n).group, n, NeighbourOf(g, n).corr).Ok?
    ensures var w := CorrectMs(table, name, sw, fix, group, sbPerGroup).value.chanWidth;
            && |w| == |sw.chanFreq|
            && forall i :: 0 <= i < |w| ==> w[i] == ChannelStep(table, g, n, |sw.chanFreq|)
  {
    CorrectMsOkOfIndices(table, name, sw, fix, group, sbPerGroup, g, n);
    ComputeFreqsGrid(table, g, n, |sw.chanFreq|);
    var r := CorrectMs(table, name, sw, fix, group, sbPerGroup).value;
    var step := ChannelStep(table, g, n, |sw.chanFreq|);
    EvenGridUniformWidths(r.chanFreq, r.chanWidth, step);
  }

  /** A grid with every gap equal to `step` gets `step` as every width. */
  lemma EvenGridUniformWidths(grid: seq<real>, widths: seq<real>, step: real)
    requires |grid| >= 2
    requires widths == EdgeWidths(Spacing(grid))
    requires forall i, j :: 0 <= i && j == i + 1 && j < |grid| ==> grid[j] - grid[i] == step
    ensures |widths| == |grid|
    ensures forall i :: 0 <= i < |widths| ==> widths[i] == step
  {
    var sp := Spacing(grid);
    forall i | 0 <= i < |sp|
      ensures sp[i] == step
    {
      assert grid[i + 1] - grid[i] == step;
    }
  }

  /** A second run with the same arguments rewrites the same frequencies,
      widths and reference frequency. The total bandwidth is also unchanged
      unless widths and total bandwidth are corrected together: the first
      run sums the widths read before its own width write. */
  lemma CorrectMsTwice(table: seq<real>, name: string, sw: SpectralWindow, fix: Corrections,
                       group: Option<int>, sbPerGroup: Option<int>)
    requires WellFormed(sw)
    requires CorrectMs(table, name, sw, fix, group, sbPerGroup).Ok?
    ensures var once := CorrectMs(table, name, sw, fix, group, sbPerGroup).value;
            && WellFormed(once)
            && CorrectMs(table, name, once, fix, group, sbPerGroup).Ok?
            && var twice := CorrectMs(table, name, once, fix, group, sbPerGroup).value;
            && twice.chanFreq == once.chanFreq
            && twice.chanWidth == once.chanWidth
            && twice.effectiveBw == once.effectiveBw
            && twice.resolution == once.resolution
            && twice.refFrequency == once.refFrequency
            && (!(fix.widths && fix.totalBandwidth) ==> twice.totalBandwidth == once.totalBandwidth)
            && (fix.widths && fix.totalBandwidth ==> twice.totalBandwidth == Sum(once.chanWidth))
  {
    var once := CorrectMs(table, name, sw, fix, group, sbPerGroup).value;
    CorrectMsKeepsWellFormed(table, name, sw, fix, group, sbPerGroup);
    PrepareFreqsDependsOnlyOnShape(table, name, name, sw, once, group, sbPerGroup);
  }

  /** From the second run on, the correction is a fixed point. */
  lemma CorrectMsStable(table: seq<real>, name: string, sw: SpectralWindow, fix: Corrections,
                        group: Option<int>, sbPerGroup: Option<int>)
    requires WellFormed(sw)
    requires CorrectMs(table, name, sw, fix, group, sbPerGroup).Ok?
    ensures var once := CorrectMs(table, name, sw, fix, group, sbPerGroup).value;
            && WellFormed(once)
            && CorrectMs(table, name, once, fix, group, sbPerGroup).Ok?
            && var twice := CorrectMs(table, name, once, fix, group, sbPerGroup).value;
            && WellFormed(twice)
            && CorrectMs(table, name, twice, fix, group, sbPerGroup) == Ok(twice)
  {
    var once := CorrectMs(table, name, sw, fix, group, sbPerGroup).value;
    CorrectMsTwice(table, name, sw, fix, group, sbPerGroup);
    var twice := CorrectMs(table, name, once, fix, group, sbPerGroup).value;
    CorrectMsKeepsWellFormed(table, name, once, fix, group, sbPerGroup);
    CorrectMsTwice(table, name, once, fix, group, sbPerGroup);
    var thrice := CorrectMs(table, name, twice, fix, group, sbPerGroup).value;
    assert thrice == twice;
  }

  /** The example of `TotalBandwidthSettlesOnSecondRun`: a four-entry
      reference table, group 1 of single subbands, and a two-channel window
      whose widths are stale. */
  const ExampleTable: seq<real> := [0.0, 1.0, 2.0, 3.0]
  const ExampleWindow: SpectralWindow := SpectralWindow([5.0, 6.0], [7.0, 7.0], [7.0, 7.0], [7.0, 7.0], 0.0, 0.0)
  const ExampleFix: Corrections := Corrections(true, false, true)

  /** The first run of the example writes the grid's half-subband widths
      and the stale sum 14 as total bandwidth. */
  lemma ExampleFirstRun() returns (once: SpectralWindow)
    ensures CorrectMs(ExampleTable, "x", ExampleWindow, ExampleFix, Some(1), Some(1)) == Ok(once)
    ensures WellFormed(once)
    ensures once.chanWidth == [0.5, 0.5]
    ensures once.totalBandwidth == 14.0
  {
    assert NeighbourOf(1, 1) == Neighbour(2, 0);
    assert TableIndices(1, 1) == [1, 2];
    CorrectedWidthsUniform(ExampleTable, "x", ExampleWindow, ExampleFix, Some(1), Some(1), 1, 1);
    CorrectMsKeepsWellFormed(ExampleTable, "x", ExampleWindow, ExampleFix, Some(1), Some(1));
    once := CorrectMs(ExampleTable, "x", ExampleWindow, ExampleFix, Some(1), Some(1)).value;
    SumOfPair(7.0, 7.0);
    ExampleStep();
  }

  /** Group 1 of single subbands on the example table is centred on 1.0
      and spaced from group 2 at 2.0, so two channels are half a subband
      apart. */
  lemma ExampleStep()
    ensures CentralFreq(ExampleTable, 1, 1, 0) == Ok(1.0)
    ensures CentralFreq(ExampleTable, 2, 1, 0) == Ok(2.0)
    ensures NeighbourOf(1, 1) == Neighbour(2, 0) && OwnCorr(1, 1) == 0
    ensures ChannelStep(ExampleTable, 1, 1, 2) == 0.5
  {
    assert CentreIndices(1, 1, 0) == [1];
    assert CentreIndices(2, 1, 0) == [2];
  }

  /** Correcting widths and total bandwidth together is not idempotent on
      the first run: a two-channel window whose widths are stale gets the
      stale sum 14 first and the corrected sum 1 on the next run. */
  lemma TotalBandwidthSettlesOnSecondRun()
    ensures && CorrectMs(ExampleTable, "x", ExampleWindow, ExampleFix, Some(1), Some(1)).Ok?
            && var once := CorrectMs(ExampleTable, "x", ExampleWindow, ExampleFix, Some(1), Some(1)).value;
            && WellFormed(once)
            && CorrectMs(ExampleTable, "x", once, ExampleFix, Some(1), Some(1)).Ok?
            && once.totalBandwidth == 14.0
            && CorrectMs(ExampleTable, "x", once, ExampleFix, Some(1), Some(1)).value.totalBandwidth == 1.0
  {
    var once := ExampleFirstRun();
    CorrectMsTwice(ExampleTable, "x", ExampleWindow, ExampleFix, Some(1), Some(1));
    SumOfPair(0.5, 0.5);
  }

  /** The sum of two widths. */
  lemma SumOfPair(a: real, b: real)
    ensures Sum([a, b]) == a + b
  {
    assert [a, b][..1] == [a];
    assert [a][..0] == [];
    assert Sum([a]) == Sum([]) + a;
    assert Sum([a, b]) == Sum([a]) + b;
  }
}
