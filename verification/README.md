# prefactor frequency and naming scripts, modelled in Dafny

The model covers the pure logic of several prefactor pipeline scripts.

Its centre is the frequency-grid reconstruction of
`scripts/check_frequencies.py`, in four steps:

1. A Measurement Set's name is parsed into a subband group
   (`_SBgr<G>-<N>_` or `_SB<S>_`).
2. The group's central frequency is looked up in the reference table of
   subband frequencies. The neighbouring group picked by the hand-written
   rule table gives the channel step.
3. An evenly spaced, centred channel grid is built from the centre and the
   step.
4. The grid is written into the spectral window. On request, the channel
   widths, the reference frequency and the total bandwidth are rewritten
   from what is read back.

Around that core the model also covers:

- the linear channel-width correction of `scripts/fix_frequencies.py`, and
  its `find_nearest`;
- the argument helpers and SIP-cache lookup of `scripts/get_MOM_data.py`;
- the list-argument parser that `scripts/make_calibrator_SIP.py` and
  `scripts/update_tgt_field.py` both carry, modelled once in `StrLists`;
- the results-name construction of
  `plugins/PipelineStep_makeCalResultsNames.py`.

Modelling choices:

- Frequencies are exact `real`s, so `np.linspace`, `np.mean` and `np.sum`
  have no rounding.
- The reference table is a `seq<real>` parameter. It is indexed with
  numpy's rules: a negative index counts from the end, and anything else out
  of range is an IndexError.
- The spectral window is an immutable record. A write returns the new
  record, and a read after a write sees the written values.
- Every Python exception a modelled path can raise is a `Result` error
  carrying the exception's class.
- `channels_per_group/2-0.5` is read with true division.
  `ChannelGrid.ShiftReadingsAgreeIffEven` proves that the Python 2 floor
  reading agrees with it exactly for even channel counts.

Modules:

| module | file |
|---|---|
| `Wrappers` | `wrappers.dfy` |
| `Strings` | `strings.dfy` (Python string, path and number helpers) |
| `Reals` | `reals.dfy` |
| `PyValues` | `py_values.dfy` |
| `SpectralWindows` | `spectral_window.dfy` |
| `NameResolver` | `name_resolver.dfy` |
| `CentralFrequency` | `central_frequency.dfy` |
| `ChannelGrid` | `channel_grid.dfy` |
| `CheckFrequencies` | `check_frequencies.dfy` |
| `FixFrequencies` | `fix_frequencies.dfy` |
| `MomData` | `mom_data.dfy` |
| `StrLists` | `str_lists.dfy` |
| `CalibratorSip` | `calibrator_sip.dfy` |
| `UpdateTgtField` | `update_tgt_field.dfy` |
| `CalResultsNames` | `cal_results_names.dfy` |

Where the code departs from the documented behaviour of the scripts, the model
follows the code:

- The total bandwidth that `correct_ms` writes is the sum of the widths
  read before the width write (`widths`, line 211). It is not the sum of
  the new widths. Correcting widths and total bandwidth together therefore
  settles only on the second run (`CheckFrequencies.CorrectMsTwice`,
  `CheckFrequencies.TotalBandwidthSettlesOnSecondRun`).
- The directory mode of `check_frequencies.py` (lines 231-242) catches
  nothing, so the first failing dataset ends the loop. It also ignores
  the group overrides. The command line is not modelled.

## Model

| member | source | states |
|---|---|---|
| NameResolver.GroupedFields | scripts/check_frequencies.py:124 | a match of `_SBgr(\d+)-(\d+)_` at a position captures two non-empty digit runs that form a grouped token there |
| NameResolver.GroupedTokenFields | scripts/check_frequencies.py:124 | at the position of any grouped token the pattern captures exactly that token's two digit fields, since greedy `\d+` takes the whole run |
| NameResolver.SingleField | scripts/check_frequencies.py:125 | a match of `_SB(\d+)_` at a position captures a non-empty digit run that forms a single token there |
| NameResolver.SingleTokenField | scripts/check_frequencies.py:125 | at the position of any single token the pattern captures exactly its digits |
| NameResolver.FirstGrouped | scripts/check_frequencies.py:124 | `re.findall`'s first result is the leftmost match: it is found, and no earlier position matches; none is found only when no position matches |
| NameResolver.FirstSingle | scripts/check_frequencies.py:125 | the leftmost match of the single pattern, with no match before it, or none anywhere |
| NameResolver.GetGroupSb | scripts/check_frequencies.py:120-135 | a result with a group size other than 1 only comes from a grouped token |
| NameResolver.GroupedTokenWins | scripts/check_frequencies.py:124-128 | the leftmost `_SBgr<G>-<N>_` gives `(int(G), int(N))`, whatever single tokens the name also holds |
| NameResolver.SingleTokenFallback | scripts/check_frequencies.py:129-131 | without any grouped token, the leftmost `_SB<S>_` gives `(int(S), 1)` |
| NameResolver.UnresolvableIff | scripts/check_frequencies.py:132-135 | the result is `(None, None)` exactly when the name holds neither token |
| NameResolver.GroupedTokenShape | scripts/check_frequencies.py:124 | a grouped token starts with `_SBg` and ends with `_` |
| NameResolver.SingleTokenShape | scripts/check_frequencies.py:125 | a single token starts with `_SB` |
| NameResolver.NoTokenBefore | scripts/check_frequencies.py:124-125 | no token of either pattern starts in a prefix that holds no underscore |
| NameResolver.GroupedNameRoundTrip | scripts/check_frequencies.py:124-128 | `<pre>_SBgr<d1>-<d2>_<post>`, with no `_` in pre, resolves to the two numbers the fields spell |
| NameResolver.GroupedNumbersRoundTrip | scripts/check_frequencies.py:124-128 | writing a group and a group size into a grouped name and resolving it gives them back |
| NameResolver.SingleNameRoundTrip | scripts/check_frequencies.py:125-131 | `<pre>_SB<d>_<post>`, with no `_` in pre or post, resolves to `(int(d), 1)` |
| NameResolver.SingleTokenAfterPrefix | scripts/check_frequencies.py:125 | the single token of such a name sits right after the prefix |
| NameResolver.NoGroupedTokenInSingleName | scripts/check_frequencies.py:124 | such a single-subband name holds no grouped token |
| NameResolver.GroupedNamingExample | scripts/check_frequencies.py:124-128 | `L12345_SBgr03-10_uv.MS` resolves to group 3 of 10 subbands |
| NameResolver.SingleNamingExample | scripts/check_frequencies.py:129-131 | `L12345_SB042_uv.MS` resolves to group 42 of 1 subband |
| NameResolver.UnresolvableNamingExample | scripts/check_frequencies.py:132-134 | a name with neither token resolves to nothing |
| CentralFrequency.At | scripts/check_frequencies.py:64-67 | numpy indexing: succeeds exactly on `-len <= i < len`; a negative index reads from the end; otherwise IndexError naming the index |
| CentralFrequency.CentralFreq | scripts/check_frequencies.py:58-67 | success reads only valid table positions; an IndexError names one of the positions read that lies outside the table (the value: CentralFreqIsGroupMiddle) |
| CentralFrequency.CentralFreqOkIff | scripts/check_frequencies.py:63-67 | the centre lookup succeeds exactly when every position it reads is a valid index |
| CentralFrequency.CentralFreqIsGroupMiddle | scripts/check_frequencies.py:63-67 | for odd N the centre is the one entry with as many group members below as above; for even N it is the mean of the two entries that straddle the middle |
| CentralFrequency.CentralFreqOfLinearTable | scripts/check_frequencies.py:63-67 | on an evenly spaced table both parities give the frequency halfway between the shifted group's first and last subband |
| CentralFrequency.EvenMiddle | scripts/check_frequencies.py:64-65 | the mean of the two middle entries of an evenly spaced run is the run's midpoint |
| CentralFrequency.OddMiddle | scripts/check_frequencies.py:67 | the middle entry of an odd evenly spaced run is the run's midpoint |
| CentralFrequency.NeighbourOf | scripts/check_frequencies.py:81-103 | the neighbour is always group ± 1, with shift 0 or 1 |
| CentralFrequency.NeighbourRegions | scripts/check_frequencies.py:81-103 | first-match-wins amounts to disjoint ranges. For N=10: below 30 → g+1, shift 0; 30, 31 and above 37 → g-1, shift 0; 32 and 34..37 → g-1, shift 1; 33 → g+1, shift 1. For N=1: g-1 exactly for 319 and above 321, shift 0. Any other N → g+1, shift 0 |
| CentralFrequency.OwnCorr | scripts/check_frequencies.py:73-76 | the own centre is shifted by one position exactly for 10-subband groups from 32 on, and otherwise not at all |
| CentralFrequency.NeighbourCorrMatchesOwn | scripts/check_frequencies.py:73-103 | the neighbour's shift equals the group's own (`corr_factor=1` exactly for N=10, g>=32) except in the fall-back branch for N=10, g>37 |
| CentralFrequency.Group32Boundary | scripts/check_frequencies.py:73-86 | group 32 of 10 is shifted by one and takes its spacing from group 31, also shifted |
| CentralFrequency.TableIndicesNonNegative | scripts/check_frequencies.py:64-103 | for g>=0 and N>=1 no position `compute_freqs` reads is negative, so numpy's wrap-around is never used |
| CentralFrequency.CentreIndicesNonNegative | scripts/check_frequencies.py:64-67 | with non-negative group and shift, both lookups read non-negative positions |
| CentralFrequency.ZeroGroupSizeReadsLastEntry | scripts/check_frequencies.py:63-65 | a group size of 0 reads position -1, which numpy maps to the table's last entry |
| ChannelGrid.Linspace | scripts/check_frequencies.py:107-110 | `np.linspace`: num points, from start, ending at stop, consecutive points `(stop-start)/(num-1)` apart |
| ChannelGrid.ShiftReadingsAgreeIffEven | scripts/check_frequencies.py:106 | the true-division and Python 2 floor readings of `channels_per_group/2-0.5` agree exactly for even counts; for odd counts floor division is half a step shorter |
| ChannelGrid.ChannelShift | scripts/check_frequencies.py:106 | twice the shift is the channel count minus one: the end channels sit that many half-steps from the centre, never below it |
| ChannelGrid.ChannelStep | scripts/check_frequencies.py:105 | a non-negative step that, times the channel count, spans the gap between the group's centre and its neighbour's |
| ChannelGrid.CentredGrid | scripts/check_frequencies.py:107-110 | the grid has one point per channel |
| ChannelGrid.CentredGridPoints | scripts/check_frequencies.py:105-110 | point i sits `i - (n-1)/2` steps from the centre, so consecutive points are exactly one step apart |
| ChannelGrid.CentredGridSymmetric | scripts/check_frequencies.py:107-110 | points i and n-1-i average to the centre |
| ChannelGrid.CentredGridMean | scripts/check_frequencies.py:105-110 | the mean of a non-empty grid is its centre |
| ChannelGrid.CentredGridAscending | scripts/check_frequencies.py:105-110 | a non-negative step gives an ascending grid |
| ChannelGrid.ComputeFreqs | scripts/check_frequencies.py:69-111 | a computed grid has exactly `channels_per_group` points |
| ChannelGrid.ComputeFreqsOkIff | scripts/check_frequencies.py:69-103 | `compute_freqs` fails exactly when one of the table positions it reads is not a valid index |
| ChannelGrid.ComputeFreqsGrid | scripts/check_frequencies.py:105-111 | the grid has one point per channel, consecutive points `|c - c_aux| / channels` apart, mean equal to the group's own centre, and ascending order |
| ChannelGrid.ComputeFreqsOnLinearTable | scripts/check_frequencies.py:73-105 | on an evenly spaced table with spacing d, `channels * step == N * |d|` wherever the rule table shifts both centres alike. The fall-back branch for N=10, g>37 spans 11 subbands |
| ChannelGrid.LinearNeighbourGap | scripts/check_frequencies.py:73-103 | on an evenly spaced table the two centres are ±`SpanSubbands` table steps apart |
| ChannelGrid.NeighbourSpan | scripts/check_frequencies.py:73-103 | the neighbour's shifted start is ±`SpanSubbands` positions from the group's own |
| ChannelGrid.StepOfNeighbourGap | scripts/check_frequencies.py:105 | two centres ±`SpanSubbands` table steps apart give `channels * cstep == SpanSubbands * |d|` |
| ChannelGrid.StepOfGap | scripts/check_frequencies.py:105 | a gap of ±n table steps spread over the channels gives `channels * cstep == n * |d|` |
| ChannelGrid.LinearCentreGap | scripts/check_frequencies.py:63-67 | on an evenly spaced table two group centres differ by the difference of their shifted starts, in table steps |
| SpectralWindows.Spacing | scripts/check_frequencies.py:32 | `frequencies[1:] - frequencies[:-1]`: one gap fewer than channels, gap i is `f[i+1] - f[i]` |
| SpectralWindows.ReadMs | scripts/check_frequencies.py:24-37 | the reading returns the window's columns and the spacing of its frequencies |
| SpectralWindows.WriteMs | scripts/check_frequencies.py:39-56 | CHAN_FREQ is always written; given widths go to CHAN_WIDTH, EFFECTIVE_BW and RESOLUTION; each scalar is written only when given; everything else is kept |
| CheckFrequencies.ChannelsPerGroup | scripts/check_frequencies.py:113-118 | the number of CHAN_FREQ entries |
| CheckFrequencies.ResolveGroup | scripts/check_frequencies.py:137-160 | both overrides given: they are used and the name is not parsed. Otherwise the name must resolve (else ValueError), and each missing value comes from it while each given one is kept |
| CheckFrequencies.PrepareFreqs | scripts/check_frequencies.py:152-165 | the prepared grid has as many points as CHAN_FREQ has entries |
| CheckFrequencies.PrepareFreqsDependsOnlyOnShape | scripts/check_frequencies.py:152-165 | datasets with equally many channels get the same grid; with both overrides the name plays no part |
| CheckFrequencies.PrepareFreqsOfResolved | scripts/check_frequencies.py:163-165 | once the group is resolved, the grid is `compute_freqs` for the dataset's channel count |
| CheckFrequencies.EdgeWidths | scripts/check_frequencies.py:205-207 | the new widths are the spacings, with the last spacing repeated for the last channel |
| CheckFrequencies.NewWidths | scripts/check_frequencies.py:204-207 | the width correction fails (`spacing[-1]` on an empty array) exactly for a single channel; it is present exactly when requested |
| CheckFrequencies.CorrectMs | scripts/check_frequencies.py:192-216 | CHAN_FREQ becomes the prepared grid. Requested widths are the edge widths of the new grid, also written to EFFECTIVE_BW and RESOLUTION, and at least two channels exist. A requested REF_FREQUENCY becomes the grid mean, and a requested TOTAL_BANDWIDTH the sum of the widths as they were. Unrequested fields are untouched |
| CheckFrequencies.WindowAfterCorrectMs | scripts/check_frequencies.py:197-216 | the window left in the dataset: the corrected one on success; untouched when the grid cannot be prepared; when widths are requested for one channel, the new CHAN_FREQ written before the IndexError, with every other field as it was |
| CheckFrequencies.CorrectMsErrIff | scripts/check_frequencies.py:197-207 | the correction fails exactly when the grid cannot be computed or widths are requested for one channel |
| CheckFrequencies.CorrectMsKeepsWellFormed | scripts/check_frequencies.py:197-216 | the corrected window is well formed and has the original channel count |
| CheckFrequencies.CorrectMsOkOfIndices | scripts/check_frequencies.py:197-207 | when every table position of the resolved group is valid, and widths are requested only for two channels or more, the correction succeeds and writes the `compute_freqs` grid |
| CheckFrequencies.CorrectedRefFrequencyIsCentre | scripts/check_frequencies.py:208-209 | when every table position of the resolved group is valid, and widths are requested only for two channels or more, the correction succeeds and the corrected reference frequency is the group's own central frequency |
| CheckFrequencies.CorrectedWidthsUniform | scripts/check_frequencies.py:204-207 | with at least two channels and every table position valid, the correction succeeds and every corrected width, the last included, is the channel step of the grid |
| CheckFrequencies.EvenGridUniformWidths | scripts/check_frequencies.py:205-207 | a grid whose gaps all equal a step gets that step as every edge width, one per channel |
| CheckFrequencies.CorrectMsTwice | scripts/check_frequencies.py:197-216 | a second run rewrites the same frequencies, widths and reference frequency. Total bandwidth is unchanged unless widths and total bandwidth are both corrected; then it becomes the sum of the first run's widths |
| CheckFrequencies.CorrectMsStable | scripts/check_frequencies.py:197-216 | from the second run on, the correction is a fixed point |
| CheckFrequencies.ExampleFirstRun | scripts/check_frequencies.py:197-211 | two channels 5, 6 with stale widths 7, 7, group 1 of single subbands: the first run writes widths 0.5, 0.5 and total bandwidth 14 |
| CheckFrequencies.ExampleStep | scripts/check_frequencies.py:58-105 | on the example table group 1 of single subbands is centred on 1.0 and its neighbour group 2 on 2.0, so two channels are 0.5 apart |
| CheckFrequencies.TotalBandwidthSettlesOnSecondRun | scripts/check_frequencies.py:200-211 | two channels with stale widths 7, 7: the first run writes total bandwidth 14, the second 1 |
| FixFrequencies.Subband | scripts/fix_frequencies.py:12 | IndexError exactly when the path holds no "SB"; otherwise at most three characters, a prefix of the text after the first "SB" |
| FixFrequencies.SubbandOfLofarName | scripts/fix_frequencies.py:12 | `<pre>SB<ddd><post>` with no earlier "SB" yields its three digits |
| FixFrequencies.ChannelWidth | scripts/fix_frequencies.py:39-46 | the width exists exactly when the column is non-empty and constant; otherwise `Exception` |
| FixFrequencies.ChannelWidthIsUniqueValue | scripts/fix_frequencies.py:42-46 | the width is c exactly when `np.unique` of the column is `{c}` |
| FixFrequencies.Channels | scripts/fix_frequencies.py:27-32 | the distinct-frequency count is at most the column length, and zero only for an empty column |
| FixFrequencies.ChannelsOfIncreasingGrid | scripts/fix_frequencies.py:27-32 | on a strictly increasing grid the count is the number of channels |
| FixFrequencies.Correct | scripts/fix_frequencies.py:48-81 | a nonzero width correction fails for one channel (TypeError) and for an even count (ValueError). On success every width grows by w, the total bandwidth by the bandwidth correction, and the other columns are kept. A zero amount leaves its columns untouched |
| FixFrequencies.ShiftChannels | scripts/fix_frequencies.py:53-56 | one value per channel, the middle channel `N = len//2` kept in place (the shifts: CorrectShiftsAboutMiddle, ShiftWidensGaps) |
| FixFrequencies.AddToAll | scripts/fix_frequencies.py:57 | every width grows by exactly w (undone by CorrectUndo) |
| FixFrequencies.CorrectShiftsAboutMiddle | scripts/fix_frequencies.py:53-56 | channel i moves by `(i - n//2) * w`, so for odd n the middle channel stays |
| FixFrequencies.CorrectWidensEveryGap | scripts/fix_frequencies.py:53-57 | every gap between neighbouring channels grows by w, as every width does |
| FixFrequencies.ShiftWidensGaps | scripts/fix_frequencies.py:55-56 | a centred shift by w widens each gap by w |
| FixFrequencies.CorrectKeepsMeanFrequency | scripts/fix_frequencies.py:53-56 | for an odd count the mean frequency does not move |
| FixFrequencies.ShiftKeepsMean | scripts/fix_frequencies.py:55-56 | a centred shift of an odd-length grid keeps its mean |
| FixFrequencies.CentredShiftsCancel | scripts/fix_frequencies.py:55 | the shifts `np.arange(-N, N+1) * w` sum to zero |
| FixFrequencies.CorrectUndo | scripts/fix_frequencies.py:48-81 | applying the opposite amounts restores the window |
| FixFrequencies.FirstNearestUnique | scripts/fix_frequencies.py:97 | `argmin`'s answer, the first index of minimal distance, is unique |
| FixFrequencies.NearestIndex | scripts/fix_frequencies.py:97 | a reference argmin: an index of minimal distance with no earlier index as close |
| FixFrequencies.Nearest | scripts/fix_frequencies.py:95-98 | ValueError exactly for an empty array; otherwise the element at the first index of minimal distance |
| FixFrequencies.FindNearest | scripts/fix_frequencies.py:95-98 | the one-pass search returns the first nearest element, and agrees with `Nearest` |
| FixFrequencies.MainArguments | scripts/fix_frequencies.py:101-102 | both arguments pass through `ast.literal_eval`, which succeeds only on strings |
| FixFrequencies.MainRejectsEveryFlag | scripts/fix_frequencies.py:101 | a bool from the `store_true` flag makes `main` raise ValueError, whatever the other arguments |
| FixFrequencies.FixMain | scripts/fix_frequencies.py:100-121 | success needs an "SB" in the name, a uniform width, channels and a reference table; without `correct` the window is unchanged |
| FixFrequencies.FixMainReachesRequiredBandwidth | scripts/fix_frequencies.py:113-121 | after a correction every width is `tbw / channels` and the total bandwidth is `tbw` |
| FixFrequencies.FixMainOkIff | scripts/fix_frequencies.py:100-121 | `main` succeeds exactly when the name holds "SB", the widths are uniform, there are channels, the table is non-empty, and any requested correction fits the channel count |
| PyValues.LiteralEval | scripts/fix_frequencies.py:101 | a string is parsed as a literal; any other value is ValueError |
| MomData.Input2Bool | scripts/get_MOM_data.py:134-149 | None gives None (and only None does), a bool is kept, a number is its non-zeroness, a list or other object is TypeError; only a string can give ValueError |
| MomData.Input2BoolStrings | scripts/get_MOM_data.py:139-145 | a string is True exactly for TRUE in any case or "1", False exactly for FALSE in any case or "0", and ValueError otherwise |
| MomData.Input2BoolReadsPrintedBool | scripts/get_MOM_data.py:140-143 | `str()` of a bool reads back as that bool |
| MomData.LeadingObsId | scripts/get_MOM_data.py:51-56 | `L\d+` matches exactly when the name starts with L and a digit; the result is the maximal digit run after the L |
| MomData.ObsIdFromFilename | scripts/get_MOM_data.py:49-57 | the obs-ID is the leading match of the basename, and ValueError when there is none |
| MomData.ObsIdOfLofarName | scripts/get_MOM_data.py:49-57 | a file `L<n><rest>` in any directory, with rest not starting with a digit, gives back n |
| MomData.LeadingObsIdOfLofarName | scripts/get_MOM_data.py:51-56 | `L<digits><non-digit...>` matches exactly those digits |
| MomData.DropTrailingSlash | scripts/get_MOM_data.py:96-97 | one trailing slash removed, the path otherwise kept; an empty path is IndexError |
| MomData.MsFileId | scripts/get_MOM_data.py:96-102 | IndexError exactly for an empty path; otherwise the file ID is the whole text of the basename before its first ".MS", or all of it when there is none |
| MomData.MsFileIdOfStandardName | scripts/get_MOM_data.py:96-102 | `<dir>/<stem>.MS`, with or without a trailing slash, has file ID stem |
| MomData.DropOneSlash | scripts/get_MOM_data.py:96-97 | a path not ending in '/' survives the normalisation, with or without a slash appended |
| MomData.BeforeMsSuffix | scripts/get_MOM_data.py:99-102 | the text before the first ".MS" of `stem.MS` is stem when stem holds no '.' |
| MomData.KeySliceMatchIsPrefix | scripts/get_MOM_data.py:105 | `keyname[:strlen] == fileID` holds exactly when the key starts with the file ID |
| MomData.FirstPrefixMatch | scripts/get_MOM_data.py:104-108 | the first entry, in iteration order, whose key starts with the file ID; no earlier key does |
| MomData.CacheLookup | scripts/get_MOM_data.py:104-108 | a miss exactly when no key starts with the file ID; a hit returns the SIP of such a key |
| MomData.PlanSip | scripts/get_MOM_data.py:95-122 | an empty path is IndexError. A hit returns the cached SIP without a download. A miss raises ValueError unless downloads are on, and also for an unknown mode. A download is by obs-ID exactly in OBSID mode. In OBSID mode the request carries the obs-ID of the basename, and a basename not starting with `L<digits>` is a ValueError; in LTA_NAME mode it carries the basename |
| MomData.PlanSipFetchesLofarObsId | scripts/get_MOM_data.py:99-122 | on a cache miss in OBSID mode, `<dir>/L<n><rest>` is fetched by obs-ID n |
| MomData.FinishSip | scripts/get_MOM_data.py:126-132 | the refreshed cache is searched again. A miss raises ValueError in OBSID mode, and UnboundLocalError in LTA_NAME mode, where the error message names the unbound `obsID` |
| MomData.MomXmlPathAsWritten | scripts/get_MOM_data.py:201-202 | the xml path is outdir joined with the basename of the stripped path plus ".xml"; a path ending in '/' gives the xml name ".xml" |
| MomData.XmlNameLostOnTrailingSlash | scripts/get_MOM_data.py:201 | `L123456_SB000_uv.MS/` gives `./.xml` |
| MomData.MomXmlPath | scripts/get_MOM_data.py:201-202 | the xml path is outdir joined with the basename of the path after one trailing slash is dropped, plus ".xml" |
| MomData.MomXmlPathNamesTheSet | scripts/get_MOM_data.py:201-202 | with or without a trailing slash, the xml file is named after the Measurement Set |
| MomData.XmlPathOfSlashedPath | scripts/get_MOM_data.py:201-202 | a trailing slash does not change the xml path |
| MomData.MomMain | scripts/get_MOM_data.py:185-202 | success exactly when both boolean options parse and the cache step succeeds, with the first failure's error otherwise; the cache step is the lookup of the stripped path with the parsed download flag; the xml path is the one lines 201-202 build, trailing slash included |
| MomData.MomMainCorrected | scripts/get_MOM_data.py:185-202 | the same success condition, errors and cache step as `main`, with the xml file named after the Measurement Set |
| MomData.MomMainCorrectionOnlyRenames | scripts/get_MOM_data.py:185-202 | the corrected `main` fails exactly when `main` does, with the same error, picks the same cache step, and differs only in the xml path of a path ending in '/' |
| StrLists.StripAll | scripts/make_calibrator_SIP.py:115 | element i is the i-th input element stripped of spaces and quote characters |
| StrLists.StripAllUnquoted | scripts/make_calibrator_SIP.py:115 | no stripped element starts or ends with a space or quote |
| StrLists.BracketedElements | scripts/make_calibrator_SIP.py:114-115 | a bracketed string gives one element more than it has commas, none quoted at its ends |
| StrLists.StringElements | scripts/make_calibrator_SIP.py:113-117 | a bracketed string is split as above; any other string is one stripped element |
| StrLists.Input2StrList | scripts/make_calibrator_SIP.py:107-122 | TypeError exactly for a non-string, non-list value. A bracketed string gives comma count + 1 elements; another string gives exactly itself stripped; a list gives each element stripped of spaces and quotes, in order. No element starts or ends with a space or quote |
| StrLists.StringNeverGivesEmptyList | scripts/make_calibrator_SIP.py:113-117 | a string never gives an empty list; `"[]"` gives one empty name |
| StrLists.EmptyBrackets | scripts/make_calibrator_SIP.py:114-115 | `"[]"` splits into one empty element |
| StrLists.ParsesPrintedList | scripts/make_calibrator_SIP.py:113-115 | parsing Python's printout of a non-empty list of plain names gives the names back |
| StrLists.PrintedElements | scripts/make_calibrator_SIP.py:115 | printed elements hold no comma and strip back to the names |
| StrLists.PrintedElement | scripts/make_calibrator_SIP.py:115 | one printed element `'name'` (after a space except for the first) strips back to the name |
| StrLists.PrintedJoinQuoted | scripts/make_calibrator_SIP.py:114 | a printed list's inner text starts and ends with a quote, so it survives `strip('[]')` |
| StrLists.StripsBack | scripts/make_calibrator_SIP.py:115 | elements that strip to the names form a list that strips to them |
| StrLists.ParseBracketed | scripts/make_calibrator_SIP.py:114-115 | brackets around a text with no bracket at either end parse as the text's stripped comma fields |
| StrLists.StripBrackets | scripts/make_calibrator_SIP.py:114 | such brackets strip off cleanly |
| CalibratorSip.ParsetOptional | scripts/make_calibrator_SIP.py:13-23 | a missing key is KeyError; a value that is not NONE in some case is read by the parset's reader, failing exactly when it does; a present value is the reader's |
| CalibratorSip.ParsetNoneIff | scripts/make_calibrator_SIP.py:13-23 | None exactly when the key holds NONE in any mix of cases |
| CalibratorSip.NewXmlName | scripts/make_calibrator_SIP.py:188 | the name ends in ".xml", and its stem is the path with every trailing '/' removed: a prefix, not ending in '/', followed only by slashes |
| CalibratorSip.NewXmlNameIgnoresTrailingSlash | scripts/make_calibrator_SIP.py:188 | a trailing slash does not change the xml name |
| CalibratorSip.CalibratorArguments | scripts/make_calibrator_SIP.py:143-156 | success gives the parsed SIP list, all readable and non-empty, a non-empty pipeline name, both paths existing, and `new_xml_name`. A parse failure propagates, an unreadable file is an IOError, and once every file is read a ValueError is raised exactly when one of the four checks fails; when all pass the result is the list and `new_xml_name` |
| CalibratorSip.NoInputSipsOnlyFromEmptyList | scripts/make_calibrator_SIP.py:143-152 | with the other checks passing, a string argument always passes: "no valid input SIPs" needs an empty Python list |
| UpdateTgtField.TrimAll | scripts/update_tgt_field.py:26 | each name loses exactly its trailing slashes: a prefix of the name, not ending in '/' |
| UpdateTgtField.TargetTables | scripts/update_tgt_field.py:23-26 | the tables opened are the parsed names, trimmed; parse failures propagate |
| UpdateTgtField.TargetTableCount | scripts/update_tgt_field.py:12-16 | a bracketed string names comma count + 1 tables, any other string exactly one |
| UpdateTgtField.TrimmedNameIsKept | scripts/update_tgt_field.py:26 | trimming is idempotent, and one added slash is removed |
| CalResultsNames.ObservationName | plugins/PipelineStep_makeCalResultsNames.py:36 | the name is the prefix of the file name up to its first '_', or all of it |
| CalResultsNames.ObservationNameOfLofarFile | plugins/PipelineStep_makeCalResultsNames.py:36 | `<obs>_<rest>` gives obs |
| CalResultsNames.Dedupe | plugins/PipelineStep_makeCalResultsNames.py:34-38 | the list is repetition-free and holds exactly the names seen |
| CalResultsNames.Insert | plugins/PipelineStep_makeCalResultsNames.py:39 | inserting keeps the list sorted and adds exactly one element |
| CalResultsNames.Sort | plugins/PipelineStep_makeCalResultsNames.py:39 | `list.sort()` gives a sorted permutation |
| CalResultsNames.ObservationList | plugins/PipelineStep_makeCalResultsNames.py:34-39 | a sorted list holding every input file's observation |
| CalResultsNames.ObservationListSortedDistinct | plugins/PipelineStep_makeCalResultsNames.py:34-39 | the observation list is strictly increasing, names every input file's observation, and names nothing else |
| CalResultsNames.Underscored | plugins/PipelineStep_makeCalResultsNames.py:41-43 | empty exactly for no observations; otherwise it starts with the first observation and ends in '_' |
| CalResultsNames.NewName | plugins/PipelineStep_makeCalResultsNames.py:41-45 | the name ends in the extension, and before it neither starts nor ends with '_' |
| CalResultsNames.NewNameJoinsObservations | plugins/PipelineStep_makeCalResultsNames.py:41-45 | with non-empty names, the results name is the names joined by '_' plus the extension, and splits back into the names |
| CalResultsNames.TarName | plugins/PipelineStep_makeCalResultsNames.py:47-48 | the tar-ball path ends in ".tgz", and for a results name without '/' its basename is that name plus ".tgz" |
| CalResultsNames.TarNameOfAbsoluteName | plugins/PipelineStep_makeCalResultsNames.py:47-48 | an absolute results name makes `os.path.join` drop the ingest directory |
| CalResultsNames.PluginMainAsWritten | plugins/PipelineStep_makeCalResultsNames.py:50-62 | both result entries name the same mapfile |
| CalResultsNames.DirnameMapfileOverwritten | plugins/PipelineStep_makeCalResultsNames.py:52-60 | the mapfile returned as 'dirname' holds the tar-ball name, never the directory name |
| CalResultsNames.PluginMain | plugins/PipelineStep_makeCalResultsNames.py:50-62 | both mapfiles are written, and every other mapfile is kept |
| CalResultsNames.PluginMainKeepsBothNames | plugins/PipelineStep_makeCalResultsNames.py:50-62 | the two mapfiles differ; 'dirname' holds the directory name and 'tarname' the tar-ball name |
| CalResultsNames.MapfilePathsDiffer | plugins/PipelineStep_makeCalResultsNames.py:52-57 | the two mapfile paths differ |
| Strings.Upper | scripts/get_MOM_data.py:140 | ASCII `upper()`: same length, character by character |
| Strings.UpperMatchesIff | scripts/make_calibrator_SIP.py:14 | `s.upper() == W` for an upper-case word holds exactly for the case variants of W |
| Strings.DigitRun | scripts/get_MOM_data.py:51-52 | greedy `\d+`: the maximal digit run at a position |
| Strings.DecimalRoundTrip | scripts/check_frequencies.py:127-128 | `int(str(n)) == n` |
| Strings.Split | scripts/make_calibrator_SIP.py:115 | `split(sep)` gives one field more than there are separators, none holding the separator |
| Strings.SplitJoin | plugins/PipelineStep_makeCalResultsNames.py:41-44 | splitting a join of separator-free fields gives the fields back |
| Strings.JoinSplit | plugins/PipelineStep_makeCalResultsNames.py:36 | joining the fields of a split gives the string back |
| Strings.Strip | scripts/make_calibrator_SIP.py:115 | a stripped string neither starts nor ends with a stripped character |
| Strings.StripIsSlice | scripts/make_calibrator_SIP.py:115 | `strip` leaves the slice of the string that starts after its longest prefix of stripped characters and is followed only by stripped characters; with `Strip`'s ends this fixes the result, and it is empty only when every character is stripped |
| Strings.StripKeepsOthers | scripts/make_calibrator_SIP.py:115 | stripping brackets keeps every comma, so the comma count decides the element count |
| Strings.StripIdempotent | scripts/update_tgt_field.py:16 | stripping twice is stripping once |
| Strings.RStrip | scripts/update_tgt_field.py:26 | `rstrip`: a prefix, with only stripped characters removed and none left at the end |
| Strings.LStrip | scripts/make_calibrator_SIP.py:115 | `lstrip`: a suffix, with only stripped characters removed and none left at the start |
| Strings.BeforeFirst | scripts/get_MOM_data.py:99-102 | `split(pat)[0]`: a prefix with no occurrence inside, followed by the pattern or the end |
| Strings.SecondField | scripts/fix_frequencies.py:12 | `split(pat)[1]` exists exactly when the pattern occurs |
| Strings.Basename | scripts/get_MOM_data.py:98 | the basename is the suffix after the last '/' and holds none |
| Strings.BasenameOfJoin | scripts/get_MOM_data.py:201-202 | the basename of a directory joined with a plain name is the name |

## Left out

- Table and file I/O are not modelled: casacore/pyrap, `np.load`, pickle, `open`, saving SIPs and DataMaps. Tables and parsets become values and functions passed in. A read after `write_ms` sees the written values, since the handle `write_ms` leaves open is never closed.
- The archive queries, SSL fallback, `siplib` SIP construction, `uuid` and time stamps, `get_projectID_from_MSfile`, `init_cache` and the cache-file dump are foreign calls; a download is returned as a `Download` request.
- Command-line parsing, printing (`show_ms`, verbose output) and directory globbing are not modelled.
- IEEE-754 rounding in `linspace`, `mean`, `sum` and divisions is not modelled; exact reals stand in for float64.
- Python 2 integer division in `channels_per_group/2-0.5` is not the modelled semantics; true division is, and the two are related by `ChannelGrid.ShiftReadingsAgreeIffEven`.
- The reference-frequency branch of `MS.correct` (the `REF_FREQ` column) is not modelled, because `main` never passes that correction.
- `str()` of non-string list elements in `input2strlist_nomapfile` is not modelled: a Python list holds strings only.
- CheckFrequencies.CorrectMs: requires a well-formed window (at least one channel, one width per channel), as the Measurement Set format guarantees. The mean of zero channels (NaN in numpy) is therefore never taken.
- FixFrequencies.Correct: the single-channel TypeError stands for numpy's `len()` of the 0-d array that `squeeze()` returns.
- FixFrequencies.FixMain: takes the two command-line values as the bool and real they are meant to be; the `literal_eval` step as written is `FixFrequencies.MainArguments`.
- CalResultsNames.PluginMain: the name of the second mapfile, `makeCalResultsTarname.mapfile`, is this model's choice; the source names no second file.

## Findings

| source | as written | input that shows it | evidently intended | confidence | as-written member | corrected member |
|---|---|---|---|---|---|---|
| scripts/fix_frequencies.py:101-102 | `main` passes both arguments through `ast.literal_eval`, but `--correct` is a `store_true` flag, so it arrives as a bool, and `literal_eval` raises ValueError on any bool | `fix_frequencies.py x_SB000.MS` with or without `-c` | use the flag and the bandwidth as given: correct the widths to `tbw/channels` and the total bandwidth to `tbw` | high, not executed | FixFrequencies.MainRejectsEveryFlag | FixFrequencies.FixMainReachesRequiredBandwidth |
| scripts/get_MOM_data.py:201 | the xml name is `basename(MSfile) + ".xml"` without the trailing-slash removal that `get_SIP_from_MSfile` applies | `MSfile = "L123456_SB000_uv.MS/"`, `outdir = "."` gives `./.xml` | name the file after the Measurement Set, `L123456_SB000_uv.MS.xml` | high, not executed | MomData.XmlNameLostOnTrailingSlash | MomData.MomXmlPathNamesTheSet |
| plugins/PipelineStep_makeCalResultsNames.py:57 | the tar-ball mapfile is saved under the same name as the directory mapfile, so 'dirname' and 'tarname' are one file holding the tar-ball name | any input mapfile | two mapfiles, one holding the directory name and one the tar-ball name | medium, not executed | CalResultsNames.DirnameMapfileOverwritten | CalResultsNames.PluginMainKeepsBothNames |
