/** The SPECTRAL_WINDOW sub-table of a Measurement Set, reduced to the one
    row the scripts touch and the frequency columns they read and write.
    The casacore table handle becomes an immutable record; a write returns
    the updated record, and a read after a write sees the written values. */
module SpectralWindows {
  import opened Wrappers

  datatype SpectralWindow = SpectralWindow(
    chanFreq: seq<real>,       // CHAN_FREQ
    chanWidth: seq<real>,      // CHAN_WIDTH
    effectiveBw: seq<real>,    // EFFECTIVE_BW
    resolution: seq<real>,     // RESOLUTION
    refFrequency: real,        // REF_FREQUENCY
    totalBandwidth: real       // TOTAL_BANDWIDTH
  )

  /** What the Measurement Set format guarantees of a spectral window: at
      least one channel, and one width per channel. */
  predicate WellFormed(w: SpectralWindow) {
    |w.chanFreq| >= 1 && |w.chanWidth| == |w.chanFreq|
  }

  /** `frequencies[1:] - frequencies[:-1]`: the gap from each channel to
      the next. */
  function Spacing(f: seq<real>): (sp: seq<real>)
    ensures |sp| == if |f| == 0 then 0 else |f| - 1
    ensures forall i :: 0 <= i < |sp| ==> sp[i] == f[i + 1] - f[i]
  {
    if |f| == 0 then [] else seq(|f| - 1, i requires 0 <= i < |f| - 1 => f[i + 1] - f[i])
  }

  /** What `read_ms` returns. */
  datatype Reading = Reading(
    frequencies: seq<real>,
    spacing: seq<real>,
    widths: seq<real>,
    refFrequency: real,
    totalBandwidth: real
  )

  function ReadMs(w: SpectralWindow): (r: Reading)
    ensures r.frequencies == w.chanFreq && r.widths == w.chanWidth
    ensures r.spacing == Spacing(w.chanFreq)
    ensures r.refFrequency == w.refFrequency && r.totalBandwidth == w.totalBandwidth
  {
    Reading(w.chanFreq, Spacing(w.chanFreq), w.chanWidth, w.refFrequency, w.totalBandwidth)
  }

  /** `write_ms`: CHAN_FREQ is always written; widths go to CHAN_WIDTH,
      EFFECTIVE_BW and RESOLUTION; the two scalars only when given. */
  function WriteMs(w: SpectralWindow, freqs: seq<real>, widths: Option<seq<real>>,
                   refFrequency: Option<real>, totalBandwidth: Option<real>): (w': SpectralWindow)
    ensures w'.chanFreq == freqs
    ensures widths.Some? ==>
              w'.chanWidth == widths.value && w'.effectiveBw == widths.value && w'.resolution == widths.value
    ensures widths.None? ==>
              w'.chanWidth == w.chanWidth && w'.effectiveBw == w.effectiveBw && w'.resolution == w.resolution
    ensures w'.refFrequency == if refFrequency.Some? then refFrequency.value else w.refFrequency
    ensures w'.totalBandwidth == if totalBandwidth.Some? then totalBandwidth.value else w.totalBandwidth
  {
    var w1 := w.(chanFreq := freqs);
    var w2 := match widths
      case Some(ws) => w1.(chanWidth := ws, effectiveBw := ws, resolution := ws)
      case None => w1;
    var w3 := match refFrequency
      case Some(rf) => w2.(refFrequency := rf)
      case None => w2;
    match totalBandwidth
    case Some(tb) => w3.(totalBandwidth := tb)
    case None => w3
  }
}
