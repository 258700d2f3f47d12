/** The linear channel-width correction of scripts/fix_frequencies.py: the
    uniform channel width of a subband, the centred shift of every channel
    that widens the grid about its middle channel, the total-bandwidth
    correction, the nearest reference frequency, and the amounts `main`
    derives from a required total bandwidth. */
module FixFrequencies {
  import opened Wrappers
  import opened Strings
  import opened Reals
  import opened SpectralWindows
  import opened PyValues

  // ---------------------------------------------------------------- the subband label

  /** `mspath.split('SB')[1][:3]`: at most three characters of the text
      between the first and the second "SB"; IndexError when the path holds
      no "SB". */
  function Subband(path: string): (r: Result<string, PyException>)
    ensures r.Ok? <==> Find(path, "SB", 0).Some?
    ensures r.Err? ==> r.error == IndexError
    ensures r.Ok? ==> |r.value| <= 3 && SecondField(path, "SB").Some? && r.value <= SecondField(path, "SB").value
  {
    match SecondField(path, "SB")
    case None => Err(IndexError)
    case Some(field) => Ok(if |field| <= 3 then field else field[..3])
  }

  /** A LOFAR name `<pre>SB<ddd><post>` with no earlier "SB" yields its
      three subband digits, whatever follows them. */
  lemma SubbandOfLofarName(pre: string, d: string, post: string)
    requires forall k: nat :: !OccursAt(pre, "SB", k)
    requires |d| == 3 && AllDigits(d)
    ensures Subband(pre + "SB" + d + post) == Ok(d)
  {
    var s := pre + "SB" + (d + post);
    assert pre + "SB" + d + post == s;
    var p := |pre|;
    FirstSbAfterClean(pre, d + post);
    forall k | p + 2 <= k < p + 5
      ensures !OccursAt(s, "SB", k)
    {
      assert s[k] == d[k - p - 2];
      NoSbAtDigit(s, k);
    }
    SecondFieldAtLeast(s, "SB", 3);
    var field := SecondField(s, "SB").value;
    assert field[..3] == s[p + 2..p + 5];
    assert s[p + 2..p + 5] == d;
  }

  /** The first "SB" of `pre + "SB" + rest` is the one after `pre` when
      `pre` holds none. */
  lemma FirstSbAfterClean(pre: string, rest: string)
    requires forall k: nat :: !OccursAt(pre, "SB", k)
    ensures Find(pre + "SB" + rest, "SB", 0) == Some(|pre|)
  {
    var s := pre + "SB" + rest;
    var p := |pre|;
    assert OccursAt(s, "SB", p) by {
      assert s[p..p + 2] == "SB";
    }
    forall k: nat | k < p
      ensures !OccursAt(s, "SB", k)
    {
      if k + 2 <= p {
        assert s[k..k + 2] == pre[k..k + 2];
        assert !OccursAt(pre, "SB", k);
      } else {
        assert s[k + 1] == 'S';
        assert k + 2 <= |s| ==> s[k..k + 2][1] == s[k + 1];
      }
    }
  }

  /** No "SB" starts at a digit. */
  lemma NoSbAtDigit(s: string, e: nat)
    ensures e < |s| && IsDigit(s[e]) ==> !OccursAt(s, "SB", e)
  {
    assert e + 2 <= |s| ==> s[e..e + 2][0] == s[e];
  }

  // ---------------------------------------------------------------- channel width and count

  /** `MS.channel_width`: the one value every CHAN_WIDTH entry holds, or
      `Exception('Unevenly spaced channels present!')`. */
  function ChannelWidth(widths: seq<real>): (r: Result<real, PyException>)
    ensures r.Ok? <==> |widths| > 0 && forall i :: 0 <= i < |widths| ==> widths[i] == widths[0]
    ensures r.Err? ==> r.error == PlainException
  {
    if |widths| > 0 && forall i :: 0 <= i < |widths| ==> widths[i] == widths[0] then Ok(widths[0])
    else Err(PlainException)
  }

  /** The distinct values of a column, as `np.unique` returns them. */
  function Distinct(s: seq<real>): set<real> {
    set x | x in s
  }

  /** The width is found exactly when `np.unique` of the column has a
      single element, and it is that element. */
  lemma ChannelWidthIsUniqueValue(widths: seq<real>, c: real)
    ensures ChannelWidth(widths) == Ok(c) <==> Distinct(widths) == {c}
  {
    if Distinct(widths) == {c} {
      assert widths[0] in Distinct(widths);
      forall i | 0 <= i < |widths|
        ensures widths[i] == widths[0]
      {
        assert widths[i] in Distinct(widths);
      }
    }
  }

  /** `MS.channels`: the number of distinct channel frequencies. */
  function Channels(freqs: seq<real>): (n: nat)
    ensures n <= |freqs|
    ensures n == 0 <==> |freqs| == 0
  {
    DistinctCardinality(freqs);
    assert |freqs| > 0 ==> freqs[0] in Distinct(freqs);
    |Distinct(freqs)|
  }

  lemma {:induction false} DistinctCardinality(s: seq<real>)
    ensures |Distinct(s)| <= |s|
  {
    if |s| > 0 {
      var p := s[..|s| - 1];
      DistinctCardinality(p);
      assert Distinct(s) == Distinct(p) + {s[|s| - 1]};
    }
  }

  predicate StrictlyIncreasing(s: seq<real>) {
    forall i, j :: 0 <= i < j < |s| ==> s[i] < s[j]
  }

  /** On a genuine channel grid (no frequency repeated) the channel count
      is the number of channels. */
  lemma {:induction false} ChannelsOfIncreasingGrid(freqs: seq<real>)
    requires StrictlyIncreasing(freqs)
    ensures Channels(freqs) == |freqs|
  {
    if |freqs| > 0 {
      var p := freqs[..|freqs| - 1];
      var last := freqs[|freqs| - 1];
      ChannelsOfIncreasingGrid(p);
      assert last !in Distinct(p);
      assert Distinct(freqs) == Distinct(p) + {last};
    }
  }

  // ---------------------------------------------------------------- the correction

  /** `np.arange(-N, N+1) * w` added to the frequencies, N = n // 2: channel
      i moves by (i - N) * w. */
  function ShiftChannels(freqs: seq<real>, w: real): (r: seq<real>)
    ensures |r| == |freqs|
    ensures |freqs| > 0 ==> r[|freqs| / 2] == freqs[|freqs| / 2]
  {
    seq(|freqs|, i requires 0 <= i < |freqs| => freqs[i] + ((i - |freqs| / 2) as real) * w)
  }

  /** Every entry of a column plus w. */
  function AddToAll(s: seq<real>, w: real): (r: seq<real>)
    ensures |r| == |s|
    ensures forall i :: 0 <= i < |s| ==> r[i] - s[i] == w
  {
    seq(|s|, i requires 0 <= i < |s| => s[i] + w)
  }

  /** `MS.correct(w, tb)` (the reference-frequency branch is never used).
      A zero amount leaves its columns untouched. A nonzero width
      correction fails for a single channel (`len()` of the squeezed 0-d
      array: TypeError) and for an even channel count (the n+1 corrections
      do not broadcast against n channels: ValueError). */
  function Correct(w: SpectralWindow, cw: real, ctb: real): (r: Result<SpectralWindow, PyException>)
    ensures r.Err? <==> cw != 0.0 && (|w.chanFreq| == 1 || (|w.chanFreq| >= 2 && |w.chanFreq| % 2 == 0))
    ensures r.Err? ==> r.error == (if |w.chanFreq| == 1 then TypeError else ValueError)
    ensures r.Ok? ==>
              && |r.value.chanFreq| == |w.chanFreq|
              && |r.value.chanWidth| == |w.chanWidth|
              && (forall i :: 0 <= i < |w.chanWidth| ==> r.value.chanWidth[i] == w.chanWidth[i] + cw)
              && r.value.totalBandwidth == w.totalBandwidth + ctb
              && r.value.refFrequency == w.refFrequency
              && r.value.effectiveBw == w.effectiveBw
              && r.value.resolution == w.resolution
    ensures r.Ok? && cw == 0.0 ==> r.value.chanFreq == w.chanFreq && r.value.chanWidth == w.chanWidth
    ensures r.Ok? && ctb == 0.0 ==> r.value.totalBandwidth == w.totalBandwidth
  {
    var n := |w.chanFreq|;
    var w1 :- if cw == 0.0 then Ok(w)
              else if n == 1 then Err(TypeError)
              else if n >= 2 && n % 2 == 0 then Err(ValueError)
              else Ok(w.(chanFreq := ShiftChannels(w.chanFreq, cw), chanWidth := AddToAll(w.chanWidth, cw)));
    Ok(if ctb == 0.0 then w1 else w1.(totalBandwidth := w1.totalBandwidth + ctb))
  }

  /** Channel i moves by (i - n//2) * w; for an odd count the middle channel
      stays where it was. */
  lemma CorrectShiftsAboutMiddle(w: SpectralWindow, cw: real, ctb: real)
    requires Correct(w, cw, ctb).Ok?
    ensures var f := Correct(w, cw, ctb).value.chanFreq;
            forall i :: 0 <= i < |f| ==> f[i] == w.chanFreq[i] + ((i - |f| / 2) as real) * cw
    ensures |w.chanFreq| % 2 == 1 ==>
              Correct(w, cw, ctb).value.chanFreq[|w.chanFreq| / 2] == w.chanFreq[|w.chanFreq| / 2]
  {
  }

  /** Every gap between neighbouring channels grows by exactly w, the
      amount every width grows by: a grid whose gaps equal its widths keeps
      them equal. */
  lemma CorrectWidensEveryGap(w: SpectralWindow, cw: real, ctb: real)
    requires Correct(w, cw, ctb).Ok?
    ensures var sp := Spacing(Correct(w, cw, ctb).value.chanFreq);
            |sp| == |Spacing(w.chanFreq)| &&
            forall i :: 0 <= i < |sp| ==> sp[i] == Spacing(w.chanFreq)[i] + cw
  {
    CorrectShiftsAboutMiddle(w, cw, ctb);
    ShiftWidensGaps(w.chanFreq, Correct(w, cw, ctb).value.chanFreq, cw);
  }

  /** A centred shift of a grid by w widens each of its gaps by w. */
  lemma ShiftWidensGaps(f: seq<real>, g: seq<real>, cw: real)
    requires |g| == |f|
    requires forall i :: 0 <= i < |g| ==> g[i] == f[i] + ((i - |f| / 2) as real) * cw
    ensures |Spacing(g)| == |Spacing(f)|
    ensures forall i :: 0 <= i < |Spacing(g)| ==> Spacing(g)[i] == Spacing(f)[i] + cw
  {
    var sg := Spacing(g);
    var sf := Spacing(f);
    forall i | 0 <= i < |sg|
      ensures sg[i] == sf[i] + cw
    {
      var k := (i - |f| / 2) as real;
      assert (i + 1 - |f| / 2) as real == k + 1.0;
      NextGap(g[i], g[i + 1], f[i], f[i + 1], k, cw);
    }
  }

  lemma NextGap(g0: real, g1: real, f0: real, f1: real, k: real, cw: real)
    requires g0 == f0 + k * cw && g1 == f1 + (k + 1.0) * cw
    ensures g1 - g0 == (f1 - f0) + cw
  {
    assert (k + 1.0) * cw == k * cw + cw;
  }

  /** The shifts of an odd-length grid cancel: the mean frequency (the
      band centre) does not move. */
  lemma CorrectKeepsMeanFrequency(w: SpectralWindow, cw: real, ctb: real)
    requires Correct(w, cw, ctb).Ok?
    requires |w.chanFreq| % 2 == 1
    ensures Mean(Correct(w, cw, ctb).value.chanFreq) == Mean(w.chanFreq)
  {
    CorrectShiftsAboutMiddle(w, cw, ctb);
    ShiftKeepsMean(w.chanFreq, Correct(w, cw, ctb).value.chanFreq, cw);
  }

  /** A centred shift of an odd-length grid keeps its mean. */
  lemma ShiftKeepsMean(f: seq<real>, g: seq<real>, cw: real)
    requires |g| == |f| && |f| % 2 == 1
    requires forall i :: 0 <= i < |g| ==> g[i] == f[i] + ((i - |f| / 2) as real) * cw
    ensures Mean(g) == Mean(f)
  {
    var n := |f|;
    var half := n / 2;
    var shifts := seq(n, i requires 0 <= i < n => (i - half) as real * cw);
    SumPointwise(f, shifts, g);
    CentredShiftsCancel(shifts, half, cw);
  }

  /** The centred shifts (i - N) * w, i = 0 .. 2N, sum to zero. */
  lemma CentredShiftsCancel(shifts: seq<real>, half: nat, cw: real)
    requires |shifts| == 2 * half + 1
    requires forall i :: 0 <= i < |shifts| ==> shifts[i] == (i - half) as real * cw
    ensures Sum(shifts) == 0.0
  {
    var h := half as real;
    var a := -h * cw;
    forall i | 0 <= i < |shifts|
      ensures shifts[i] == a + (i as real) * cw
    {
      assert (i - half) as real == i as real - h;
    }
    SumArithmetic(shifts, a, cw);
    var n := |shifts| as real;
    assert n == 2.0 * h + 1.0;
    assert n * a + cw * (n * (n - 1.0) / 2.0) == n * (a + cw * h);
  }

  /** Applying the opposite corrections restores the spectral window. */
  lemma CorrectUndo(w: SpectralWindow, cw: real, ctb: real)
    requires Correct(w, cw, ctb).Ok?
    ensures Correct(Correct(w, cw, ctb).value, -cw, -ctb) == Ok(w)
  {
    var w1 := Correct(w, cw, ctb).value;
    assert Correct(w1, -cw, -ctb).Ok?;
    var w2 := Correct(w1, -cw, -ctb).value;
    if cw != 0.0 {
      CorrectShiftsAboutMiddle(w, cw, ctb);
      CorrectShiftsAboutMiddle(w1, -cw, -ctb);
      assert w2.chanFreq == w.chanFreq;
    }
    assert w2.chanWidth == w.chanWidth;
  }

  // ---------------------------------------------------------------- the nearest reference frequency

  /** Index i of `arr` holds a value closest to `value`, and no earlier index
      is as close: what `np.abs(arr - value).argmin()` returns. */
  predicate IsFirstNearest(arr: seq<real>, value: real, i: int) {
    && 0 <= i < |arr|
    && (forall j :: 0 <= j < |arr| ==> Abs(arr[i] - value) <= Abs(arr[j] - value))
    && (forall j :: 0 <= j < i ==> Abs(arr[j] - value) > Abs(arr[i] - value))
  }

  /** Only one index is the first nearest. */
  lemma FirstNearestUnique(arr: seq<real>, value: real, i: int, j: int)
    requires IsFirstNearest(arr, value, i) && IsFirstNearest(arr, value, j)
    ensures i == j
  {
    assert Abs(arr[i] - value) <= Abs(arr[j] - value);
    assert Abs(arr[j] - value) <= Abs(arr[i] - value);
  }

  /** The argmin as a recursive reference definition. */
  function NearestIndex(arr: seq<real>, value: real): (i: nat)
    requires |arr| > 0
    ensures IsFirstNearest(arr, value, i)
  {
    if |arr| == 1 then 0
    else
      var k := NearestIndex(arr[..|arr| - 1], value);
      ExtendFirstNearest(arr, value, k);
      if Abs(arr[|arr| - 1] - value) < Abs(arr[k] - value) then |arr| - 1 else k
  }

  /** The first nearest index of a prefix, or the new last element when it
      is strictly nearer, is the first nearest of the whole. */
  lemma ExtendFirstNearest(arr: seq<real>, value: real, k: nat)
    requires |arr| >= 2
    requires IsFirstNearest(arr[..|arr| - 1], value, k)
    ensures IsFirstNearest(arr, value, if Abs(arr[|arr| - 1] - value) < Abs(arr[k] - value) then |arr| - 1 else k)
  {
    var p := arr[..|arr| - 1];
    assert forall j :: 0 <= j < |p| ==> p[j] == arr[j];
  }

  /** `find_nearest(value, arr)` as a value: ValueError on an empty array
      (argmin of an empty sequence). */
  function Nearest(arr: seq<real>, value: real): (r: Result<real, PyException>)
    ensures r.Err? <==> |arr| == 0
    ensures r.Err? ==> r.error == ValueError
    ensures r.Ok? ==> exists i :: IsFirstNearest(arr, value, i) && r.value == arr[i]
  {
    if |arr| == 0 then Err(ValueError) else Ok(arr[NearestIndex(arr, value)])
  }

  /** `find_nearest(value, arr)`: one pass keeping the first index of the
      smallest distance seen so far. */
  method FindNearest(arr: seq<real>, value: real) returns (r: Result<real, PyException>)
    ensures r.Err? <==> |arr| == 0
    ensures r.Err? ==> r.error == ValueError
    ensures r.Ok? ==> exists i :: IsFirstNearest(arr, value, i) && r.value == arr[i]
    ensures r == Nearest(arr, value)
  {
    if |arr| == 0 {
      return Err(ValueError);
    }
    var best := 0;
    var i := 1;
    while i < |arr|
      invariant 1 <= i <= |arr|
      invariant 0 <= best < i
      invariant forall j :: 0 <= j < i ==> Abs(arr[best] - value) <= Abs(arr[j] - value)
      invariant forall j :: 0 <= j < best ==> Abs(arr[j] - value) > Abs(arr[best] - value)
    {
      if Abs(arr[i] - value) < Abs(arr[best] - value) {
        best := i;
      }
      i := i + 1;
    }
    FirstNearestUnique(arr, value, best, NearestIndex(arr, value));
    return Ok(arr[best]);
  }

  // ---------------------------------------------------------------- main

  /** Lines 101-102 of `main` as written: both command-line values go
      through `ast.literal_eval`. */
  function MainArguments(correct: PyValue, totalBandwidth: PyValue,
                         parseLiteral: string -> Result<PyValue, PyException>): (r: Result<(PyValue, PyValue), PyException>)
    ensures r.Ok? ==> correct.PyStr? && totalBandwidth.PyStr?
    ensures r.Ok? <==> LiteralEval(correct, parseLiteral).Ok? && LiteralEval(totalBandwidth, parseLiteral).Ok?
  {
    var c :- LiteralEval(correct, parseLiteral);
    var t :- LiteralEval(totalBandwidth, parseLiteral);
    Ok((c, t))
  }

  /** `--correct` is a `store_true` flag, so `main` always receives a bool
      there, and `ast.literal_eval` rejects every bool: `main` raises
      ValueError on its first line, whatever the other arguments. */
  lemma MainRejectsEveryFlag(flag: bool, totalBandwidth: PyValue,
                             parseLiteral: string -> Result<PyValue, PyException>)
    ensures MainArguments(PyBool(flag), totalBandwidth, parseLiteral) == Err(ValueError)
  {
  }

  /** `main` with its arguments taken as the values they already are: read
      the subband label and the current width, count the channels, look up
      the nearest reference frequency, and, when asked to, correct the
      width to `tbw / channels` and the total bandwidth to `tbw`. */
  function FixMain(msname: string, w: SpectralWindow, refFreqs: seq<real>,
                   correct: bool, tbw: real): (r: Result<SpectralWindow, PyException>)
    ensures r.Ok? ==> Find(msname, "SB", 0).Some? && |w.chanFreq| > 0 && |refFreqs| > 0
    ensures r.Ok? ==> ChannelWidth(w.chanWidth).Ok?
    ensures r.Ok? && !correct ==> r.value == w
  {
    var _ :- Subband(msname);
    var width :- ChannelWidth(w.chanWidth);
    var n := Channels(w.chanFreq);
    if n == 0 then Err(ZeroDivisionError)
    else
      var _ :- Nearest(refFreqs, w.refFrequency);
      if correct then Correct(w, tbw / n as real - width, tbw - w.totalBandwidth)
      else Ok(w)
  }

  /** A successful correction leaves every channel exactly `tbw / channels`
      wide and the total bandwidth exactly `tbw`. */
  lemma FixMainReachesRequiredBandwidth(msname: string, w: SpectralWindow, refFreqs: seq<real>, tbw: real)
    requires FixMain(msname, w, refFreqs, true, tbw).Ok?
    ensures var w' := FixMain(msname, w, refFreqs, true, tbw).value;
            && w'.totalBandwidth == tbw
            && forall i :: 0 <= i < |w'.chanWidth| ==> w'.chanWidth[i] == tbw / Channels(w.chanFreq) as real
  {
    var width := ChannelWidth(w.chanWidth).value;
    var n := Channels(w.chanFreq);
    var w' := Correct(w, tbw / n as real - width, tbw - w.totalBandwidth).value;
    assert forall i :: 0 <= i < |w.chanWidth| ==> w.chanWidth[i] == width;
  }

  /** When does `main` fail: no "SB" in the name, uneven or missing widths,
      no channels, an empty reference table, or a correction the channel
      count cannot take. */
  lemma FixMainOkIff(msname: string, w: SpectralWindow, refFreqs: seq<real>, correct: bool, tbw: real)
    ensures FixMain(msname, w, refFreqs, correct, tbw).Ok? <==>
              && Find(msname, "SB", 0).Some?
              && ChannelWidth(w.chanWidth).Ok?
              && |w.chanFreq| > 0
              && |refFreqs| > 0
              && (correct ==> Correct(w, tbw / Channels(w.chanFreq) as real - ChannelWidth(w.chanWidth).value,
                                      tbw - w.totalBandwidth).Ok?)
  {
  }
}
