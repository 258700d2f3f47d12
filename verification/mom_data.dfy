/** The pure parts of scripts/get_MOM_data.py: the boolean argument parser,
    the observation ID in a LOFAR file name, the name normalisation and
    prefix lookup in the SIP cache, and the name of the xml file written.
    The cache is the sequence of its (key, SIP) entries in the dictionary's
    iteration order; a download is returned as the request the script would
    send, and the cache it refills is passed back in. */
module MomData {
  import opened Wrappers
  import opened Strings
  import opened PyValues

  // ---------------------------------------------------------------- input2bool

  /** `input2bool`: None stays None, a bool is kept, the strings TRUE/FALSE
      (any case) and 1/0 are read, a number is its non-zeroness; any other
      string is a ValueError and any other type a TypeError. */
  function Input2Bool(v: PyValue): (r: Result<Option<bool>, PyException>)
    ensures v.PyNone? <==> r == Ok(None)
    ensures v.PyBool? ==> r == Ok(Some(v.b))
    ensures v.PyInt? ==> r == Ok(Some(v.i != 0))
    ensures v.PyFloat? ==> r == Ok(Some(v.f != 0.0))
    ensures v.PyList? || v.PyOther? <==> r == Err(TypeError)
    ensures r == Err(ValueError) ==> v.PyStr?
  {
    match v
    case PyNone => Ok(None)
    case PyBool(b) => Ok(Some(b))
    case PyStr(s) =>
      if Upper(s) == "TRUE" || s == "1" then Ok(Some(true))
      else if Upper(s) == "FALSE" || s == "0" then Ok(Some(false))
      else Err(ValueError)
    case PyInt(i) => Ok(Some(i != 0))
    case PyFloat(f) => Ok(Some(f != 0.0))
    case PyList(_) => Err(TypeError)
    case PyOther => Err(TypeError)
  }

  /** Which strings are read as which boolean. */
  lemma Input2BoolStrings(s: string)
    ensures Input2Bool(PyStr(s)) == Ok(Some(true)) <==> CaseVariant(s, "TRUE") || s == "1"
    ensures Input2Bool(PyStr(s)) == Ok(Some(false)) <==> CaseVariant(s, "FALSE") || s == "0"
    ensures Input2Bool(PyStr(s)) == Err(ValueError) <==>
              !(CaseVariant(s, "TRUE") || s == "1" || CaseVariant(s, "FALSE") || s == "0")
  {
    UpperMatchesIff(s, "TRUE");
    UpperMatchesIff(s, "FALSE");
  }

  /** What `str()` of a bool prints is read back as that bool. */
  lemma Input2BoolReadsPrintedBool(b: bool)
    ensures Input2Bool(PyStr(if b then "True" else "False")) == Ok(Some(b))
  {
    Input2BoolStrings(if b then "True" else "False");
    if b {
      assert CaseVariant("True", "TRUE");
    } else {
      assert CaseVariant("False", "FALSE");
    }
  }

  // ---------------------------------------------------------------- observation ID

  /** The match of `L\d+` at the start of a file name, without the `L`. */
  function LeadingObsId(f: string): (r: Option<string>)
    ensures r.Some? <==> |f| >= 2 && f[0] == 'L' && IsDigit(f[1])
    ensures r.Some? ==>
              && |r.value| > 0 && AllDigits(r.value)
              && 1 + |r.value| <= |f| && f[1..1 + |r.value|] == r.value
              && (1 + |r.value| == |f| || !IsDigit(f[1 + |r.value|]))
  {
    if |f| >= 2 && f[0] == 'L' && IsDigit(f[1]) then
      var n := DigitRun(f, 1);
      assert n > 0;
      Some(f[1..1 + n])
    else None
  }

  /** `get_obsID_from_filename`: the basename must start with `L\d+`; the
      result is that maximal digit run, without the `L`. */
  function ObsIdFromFilename(path: string): (r: Result<string, PyException>)
    ensures r.Ok? <==> LeadingObsId(Basename(path)).Some?
    ensures r.Ok? ==> r.value == LeadingObsId(Basename(path)).value
    ensures r.Err? ==> r.error == ValueError
  {
    match LeadingObsId(Basename(path))
    case Some(id) => Ok(id)
    case None => Err(ValueError)
  }

  /** A file named `L<n><rest>` in any directory, with `rest` not starting
      with a digit, gives back the observation number n. */
  lemma ObsIdOfLofarName(dir: string, n: nat, rest: string)
    requires '/' !in rest
    requires |rest| > 0 && !IsDigit(rest[0])
    ensures ObsIdFromFilename(PathJoin(dir, "L" + NatToDecimal(n) + rest)) == Ok(NatToDecimal(n))
    ensures DecimalValue(ObsIdFromFilename(PathJoin(dir, "L" + NatToDecimal(n) + rest)).value) == n
  {
    var d := NatToDecimal(n);
    var name := "L" + d + rest;
    LofarNameHasNoSlash(d, rest);
    BasenameOfJoin(dir, name);
    LeadingObsIdOfLofarName(d, rest);
    DecimalRoundTrip(n);
  }

  lemma LofarNameHasNoSlash(d: string, rest: string)
    requires AllDigits(d) && '/' !in rest
    ensures '/' !in "L" + d + rest
  {
    var name := "L" + d + rest;
    forall i | 0 <= i < |name|
      ensures name[i] != '/'
    {
      if 1 <= i <= |d| {
        assert name[i] == d[i - 1];
      } else if i > |d| {
        assert name[i] == rest[i - 1 - |d|];
      }
    }
  }

  lemma LeadingObsIdOfLofarName(d: string, rest: string)
    requires |d| > 0 && AllDigits(d)
    requires |rest| > 0 && !IsDigit(rest[0])
    ensures LeadingObsId("L" + d + rest) == Some(d)
  {
    var f := "L" + d + rest;
    DigitRunOfDecimal("L", d, rest);
    assert f[1] == d[0];
    assert f[1..1 + |d|] == d;
  }

  // ---------------------------------------------------------------- the SIP cache

  /** `if path[-1] == '/': path = path[:-1]`: one trailing slash removed;
      an empty path is an IndexError. */
  function DropTrailingSlash(path: string): (r: Result<string, PyException>)
    ensures r.Err? <==> |path| == 0
    ensures r.Err? ==> r.error == IndexError
    ensures r.Ok? ==> r.value <= path && (r.value == path || r.value + "/" == path)
    ensures r.Ok? && path[|path| - 1] != '/' ==> r.value == path
  {
    if |path| == 0 then Err(IndexError)
    else if path[|path| - 1] == '/' then Ok(path[..|path| - 1])
    else Ok(path)
  }

  /** The file ID of a Measurement Set path: the basename (after one
      trailing slash is dropped) up to its first ".MS". */
  function MsFileId(path: string): (r: Result<string, PyException>)
    ensures r.Err? <==> |path| == 0
    ensures r.Ok? ==> r.value <= Basename(DropTrailingSlash(path).value)
    ensures r.Ok? ==> forall k: nat :: k < |r.value| ==> !OccursAt(Basename(DropTrailingSlash(path).value), ".MS", k)
    ensures r.Ok? ==> var b := Basename(DropTrailingSlash(path).value);
                      r.value == b || OccursAt(b, ".MS", |r.value|)
  {
    var trimmed :- DropTrailingSlash(path);
    Ok(BeforeFirst(Basename(trimmed), ".MS"))
  }

  /** A Measurement Set `<dir>/<stem>.MS`, with or without a trailing
      slash, has the stem as its file ID when the stem holds no '.'. */
  lemma MsFileIdOfStandardName(dir: string, stem: string, trailing: bool)
    requires '/' !in stem && '.' !in stem
    ensures MsFileId(PathJoin(dir, stem + ".MS") + (if trailing then "/" else "")) == Ok(stem)
  {
    var name := stem + ".MS";
    MsNameHasNoSlash(stem);
    BasenameOfJoin(dir, name);
    PathJoinEnds(dir, name);
    DropOneSlash(PathJoin(dir, name), trailing);
    BeforeMsSuffix(stem);
  }

  lemma MsNameHasNoSlash(stem: string)
    requires '/' !in stem
    ensures '/' !in stem + ".MS"
  {
    assert '/' !in ".MS";
  }

  /** A path not ending in '/' survives the one-slash normalisation, with
      or without a slash appended. */
  lemma DropOneSlash(p: string, trailing: bool)
    requires |p| > 0 && p[|p| - 1] != '/'
    ensures DropTrailingSlash(p + (if trailing then "/" else "")) == Ok(p)
  {
    var q := p + (if trailing then "/" else "");
    if trailing {
      assert q[..|q| - 1] == p;
    } else {
      assert q == p;
    }
  }

  /** The text before the first ".MS" of `stem.MS` is the stem when the
      stem holds no '.'. */
  lemma BeforeMsSuffix(stem: string)
    requires '.' !in stem
    ensures BeforeFirst(stem + ".MS", ".MS") == stem
  {
    var name := stem + ".MS";
    assert OccursAt(name, ".MS", |stem|) by {
      assert name[|stem|..|stem| + 3] == ".MS";
    }
    forall k: nat | k < |stem|
      ensures !OccursAt(name, ".MS", k)
    {
      assert name[k] == stem[k];
      assert k + 3 <= |name| ==> name[k..k + 3][0] == name[k];
    }
    assert Find(name, ".MS", 0) == Some(|stem|);
    assert name[..|stem|] == stem;
  }

  /** `keyname[:len(fileID)] == fileID` holds exactly when the key starts
      with the file ID. */
  lemma KeySliceMatchIsPrefix(key: string, fileId: string)
    ensures (if |key| <= |fileId| then key else key[..|fileId|]) == fileId <==> fileId <= key
  {
  }

  /** The position of the first cache entry whose key starts with the file
      ID, in iteration order. */
  function FirstPrefixMatch<S>(cache: seq<(string, S)>, fileId: string): (r: Option<nat>)
    ensures r.Some? ==> r.value < |cache| && fileId <= cache[r.value].0
    ensures forall j :: 0 <= j < |cache| && (r.None? || j < r.value) ==> !(fileId <= cache[j].0)
  {
    if |cache| == 0 then None
    else if fileId <= cache[0].0 then Some(0)
    else
      match FirstPrefixMatch(cache[1..], fileId)
      case None => None
      case Some(k) => Some(k + 1)
  }

  /** The loop over `sip_cache.keys()`: the SIP of the first key that
      starts with the file ID. */
  function CacheLookup<S>(cache: seq<(string, S)>, fileId: string): (r: Option<S>)
    ensures r.None? <==> forall j :: 0 <= j < |cache| ==> !(fileId <= cache[j].0)
    ensures r.Some? ==> exists j :: 0 <= j < |cache| && fileId <= cache[j].0 && cache[j].1 == r.value
  {
    match FirstPrefixMatch(cache, fileId)
    case None => None
    case Some(k) => Some(cache[k].1)
  }

  /** What the cache lookup in `get_SIP_from_MSfile` asks the archive for
      on a miss. */
  datatype Download = ByObsId(obsId: string) | ByLtaName(filename: string)

  /** The first stage of `get_SIP_from_MSfile`: a SIP from the cache, or the
      download to make. */
  datatype SipStep<S> = Cached(sip: S) | Fetch(request: Download)

  /** `get_SIP_from_MSfile` up to the download. `download` is the value
      `input2bool` produced: only True allows a download. */
  function PlanSip<S>(path: string, cache: seq<(string, S)>, mode: string, download: Option<bool>): (r: Result<SipStep<S>, PyException>)
    ensures |path| == 0 ==> r == Err(IndexError)
    ensures |path| > 0 && CacheLookup(cache, MsFileId(path).value).Some? ==>
              r == Ok(Cached(CacheLookup(cache, MsFileId(path).value).value))
    ensures |path| > 0 && CacheLookup(cache, MsFileId(path).value).None? && download != Some(true) ==>
              r == Err(ValueError)
    ensures r.Ok? && r.value.Fetch? ==>
              && CacheLookup(cache, MsFileId(path).value).None?
              && download == Some(true)
              && (r.value.request.ByObsId? <==> Upper(mode) == "OBSID")
    ensures (&& |path| > 0 && CacheLookup(cache, MsFileId(path).value).None? && download == Some(true)
             && Upper(mode) != "OBSID" && Upper(mode) != "LTA_NAME") ==> r == Err(ValueError)
    ensures (&& |path| > 0 && CacheLookup(cache, MsFileId(path).value).None? && download == Some(true)
             && Upper(mode) == "OBSID") ==>
              var obsId := ObsIdFromFilename(Basename(DropTrailingSlash(path).value));
              r == if obsId.Ok? then Ok(Fetch(ByObsId(obsId.value))) else Err(ValueError)
    ensures (&& |path| > 0 && CacheLookup(cache, MsFileId(path).value).None? && download == Some(true)
             && Upper(mode) == "LTA_NAME") ==>
              r == Ok(Fetch(ByLtaName(Basename(DropTrailingSlash(path).value))))
  {
    var trimmed :- DropTrailingSlash(path);
    var filename := Basename(trimmed);
    var fileId := BeforeFirst(filename, ".MS");
    match CacheLookup(cache, fileId)
    case Some(sip) => Ok(Cached(sip))
    case None =>
      if download != Some(true) then Err(ValueError)
      else if Upper(mode) == "OBSID" then
        var obsId :- ObsIdFromFilename(filename);
        Ok(Fetch(ByObsId(obsId)))
      else if Upper(mode) == "LTA_NAME" then Ok(Fetch(ByLtaName(filename)))
      else Err(ValueError)
  }

  /** On a cache miss in OBSID mode, a Measurement Set `<dir>/L<n><rest>`
      is fetched by the observation number n it is named after. */
  lemma PlanSipFetchesLofarObsId<S>(dir: string, n: nat, rest: string, cache: seq<(string, S)>, mode: string)
    requires '/' !in rest
    requires |rest| > 0 && !IsDigit(rest[0])
    requires Upper(mode) == "OBSID"
    requires var path := PathJoin(dir, "L" + NatToDecimal(n) + rest);
             CacheLookup(cache, MsFileId(path).value).None?
    ensures var path := PathJoin(dir, "L" + NatToDecimal(n) + rest);
            && PlanSip(path, cache, mode, Some(true)) == Ok(Fetch(ByObsId(NatToDecimal(n))))
            && DecimalValue(PlanSip(path, cache, mode, Some(true)).value.request.obsId) == n
  {
    var d := NatToDecimal(n);
    var name := "L" + d + rest;
    var path := PathJoin(dir, name);
    DecimalRoundTrip(n);
    LofarNameHasNoSlash(d, rest);
    PathJoinEnds(dir, name);
    BasenameOfJoin(dir, name);
    assert DropTrailingSlash(path) == Ok(path);
    LeadingObsIdOfLofarName(d, rest);
    assert ObsIdFromFilename(Basename(path)) == Ok(d);
  }

  /** The second lookup, in the cache the download refilled. The failure
      message of the `LTA_NAME` mode names `obsID`, which only the `OBSID`
      branch binds, so that miss is an UnboundLocalError. */
  function FinishSip<S>(refreshed: seq<(string, S)>, fileId: string, request: Download): (r: Result<S, PyException>)
    ensures r.Ok? <==> CacheLookup(refreshed, fileId).Some?
    ensures r.Ok? ==> exists j :: 0 <= j < |refreshed| && fileId <= refreshed[j].0 && refreshed[j].1 == r.value
    ensures r.Err? ==> r.error == (if request.ByLtaName? then UnboundLocalError else ValueError)
  {
    match CacheLookup(refreshed, fileId)
    case Some(sip) => Ok(sip)
    case None => if request.ByLtaName? then Err(UnboundLocalError) else Err(ValueError)
  }

  // ---------------------------------------------------------------- the xml file name

  /** Lines 201-202 of `main` as written: the basename of the stripped path,
      trailing slash included, plus ".xml", joined to `outdir`. */
  function MomXmlPathAsWritten(msfile: string, outdir: string): (p: string)
    ensures p == PathJoin(outdir, Basename(Strip(msfile, Whitespace)) + ".xml")
    ensures var stripped := Strip(msfile, Whitespace);
            |stripped| > 0 && stripped[|stripped| - 1] == '/' ==> p == PathJoin(outdir, ".xml")
  {
    var stripped := Strip(msfile, Whitespace);
    var name := Basename(stripped) + ".xml";
    assert Basename(stripped) == "" ==> name == ".xml";
    PathJoin(outdir, name)
  }

  /** A Measurement Set is a directory, often named with a trailing slash;
      the xml file is then named ".xml" whatever the set is called. */
  lemma XmlNameLostOnTrailingSlash()
    ensures MomXmlPathAsWritten("L123456_SB000_uv.MS/", ".") == "./.xml"
  {
    var s := "L123456_SB000_uv.MS/";
    assert s[0] !in Whitespace && s[|s| - 1] !in Whitespace;
    StripFixed(s, Whitespace);
  }

  /** The xml path with the same one-slash normalisation
      `get_SIP_from_MSfile` applies to the path it looks up. */
  function MomXmlPath(msfile: string, outdir: string): (p: string)
    ensures var stripped := Strip(msfile, Whitespace);
            |stripped| > 0 ==> p == PathJoin(outdir, Basename(DropTrailingSlash(stripped).value) + ".xml")
  {
    var stripped := Strip(msfile, Whitespace);
    var trimmed := if |stripped| > 0 && stripped[|stripped| - 1] == '/' then stripped[..|stripped| - 1] else stripped;
    PathJoin(outdir, Basename(trimmed) + ".xml")
  }

  /** The xml file is named after the Measurement Set, with or without a
      trailing slash on its path. */
  lemma MomXmlPathNamesTheSet(dir: string, name: string, trailing: bool, outdir: string)
    requires |name| > 0 && '/' !in name
    requires |dir| == 0 || dir[0] !in Whitespace
    requires name[|name| - 1] !in Whitespace && name[0] !in Whitespace
    ensures Basename(MomXmlPath(PathJoin(dir, name) + (if trailing then "/" else ""), outdir)) == name + ".xml"
  {
    var p := PathJoin(dir, name);
    PathJoinEnds(dir, name);
    BasenameOfJoin(dir, name);
    XmlPathOfSlashedPath(p, trailing, outdir);
    XmlNameHasNoSlash(name);
    BasenameOfJoin(outdir, name + ".xml");
  }

  /** With or without one trailing slash, a path free of surrounding
      whitespace names its xml file after its basename. */
  lemma XmlPathOfSlashedPath(p: string, trailing: bool, outdir: string)
    requires |p| > 0 && p[0] !in Whitespace && p[|p| - 1] !in Whitespace && p[|p| - 1] != '/'
    ensures MomXmlPath(p + (if trailing then "/" else ""), outdir) == PathJoin(outdir, Basename(p) + ".xml")
  {
    var q := p + (if trailing then "/" else "");
    if trailing {
      assert q == p + "/";
      StripFixed(q, Whitespace);
      assert q[..|q| - 1] == p;
    } else {
      assert q == p;
      StripFixed(p, Whitespace);
    }
  }

  lemma XmlNameHasNoSlash(name: string)
    requires '/' !in name
    ensures '/' !in name + ".xml"
  {
    assert '/' !in ".xml";
  }

  /** The first and last characters of a path joined to a plain name. */
  lemma PathJoinEnds(dir: string, name: string)
    requires |name| > 0 && '/' !in name
    ensures var p := PathJoin(dir, name);
            && |p| >= |name|
            && p[0] == (if |dir| > 0 then dir[0] else name[0])
            && p[|p| - 1] == name[|name| - 1]
  {
    assert name[0] != '/';
  }

  /** `main` up to the download: both boolean options parsed, the path
      stripped, the cache consulted, and the xml path chosen as lines
      201-202 choose it. */
  function MomMain<S>(msfile: string, mode: string, outdir: string, download: PyValue, verbose: PyValue,
                      cache: seq<(string, S)>): (r: Result<(SipStep<S>, string), PyException>)
    ensures r.Ok? ==> Input2Bool(download).Ok? && Input2Bool(verbose).Ok?
    ensures r.Ok? ==> PlanSip(Strip(msfile, Whitespace), cache, mode, Input2Bool(download).value) == Ok(r.value.0)
    ensures r.Ok? ==> r.value.1 == MomXmlPathAsWritten(msfile, outdir)
    ensures r.Ok? <==> && Input2Bool(download).Ok? && Input2Bool(verbose).Ok?
                       && PlanSip(Strip(msfile, Whitespace), cache, mode, Input2Bool(download).value).Ok?
    ensures Input2Bool(download).Err? ==> r == Err(Input2Bool(download).error)
    ensures Input2Bool(download).Ok? && Input2Bool(verbose).Err? ==> r == Err(Input2Bool(verbose).error)
    ensures && Input2Bool(download).Ok? && Input2Bool(verbose).Ok?
            && PlanSip(Strip(msfile, Whitespace), cache, mode, Input2Bool(download).value).Err? ==>
              r == Err(PlanSip(Strip(msfile, Whitespace), cache, mode, Input2Bool(download).value).error)
  {
    var dl :- Input2Bool(download);
    var _ :- Input2Bool(verbose);
    var path := Strip(msfile, Whitespace);
    var step :- PlanSip(path, cache, mode, dl);
    Ok((step, MomXmlPathAsWritten(msfile, outdir)))
  }

  /** `main` with the xml file named after the Measurement Set, trailing
      slash or not. */
  function MomMainCorrected<S>(msfile: string, mode: string, outdir: string, download: PyValue, verbose: PyValue,
                               cache: seq<(string, S)>): (r: Result<(SipStep<S>, string), PyException>)
    ensures r.Ok? ==> Input2Bool(download).Ok? && Input2Bool(verbose).Ok?
    ensures r.Ok? ==> PlanSip(Strip(msfile, Whitespace), cache, mode, Input2Bool(download).value) == Ok(r.value.0)
    ensures r.Ok? ==> r.value.1 == MomXmlPath(msfile, outdir)
    ensures r.Ok? <==> && Input2Bool(download).Ok? && Input2Bool(verbose).Ok?
                       && PlanSip(Strip(msfile, Whitespace), cache, mode, Input2Bool(download).value).Ok?
    ensures Input2Bool(download).Err? ==> r == Err(Input2Bool(download).error)
    ensures Input2Bool(download).Ok? && Input2Bool(verbose).Err? ==> r == Err(Input2Bool(verbose).error)
    ensures && Input2Bool(download).Ok? && Input2Bool(verbose).Ok?
            && PlanSip(Strip(msfile, Whitespace), cache, mode, Input2Bool(download).value).Err? ==>
              r == Err(PlanSip(Strip(msfile, Whitespace), cache, mode, Input2Bool(download).value).error)
  {
    var dl :- Input2Bool(download);
    var _ :- Input2Bool(verbose);
    var path := Strip(msfile, Whitespace);
    var step :- PlanSip(path, cache, mode, dl);
    Ok((step, MomXmlPath(msfile, outdir)))
  }

  /** The correction changes nothing but the xml name, and that only when
      the stripped path ends in a slash. */
  lemma MomMainCorrectionOnlyRenames<S>(msfile: string, mode: string, outdir: string, download: PyValue,
                                        verbose: PyValue, cache: seq<(string, S)>)
    ensures var a := MomMain(msfile, mode, outdir, download, verbose, cache);
            var c := MomMainCorrected(msfile, mode, outdir, download, verbose, cache);
            && (a.Ok? <==> c.Ok?)
            && (a.Err? ==> a == c)
            && (a.Ok? ==> a.value.0 == c.value.0)
    ensures var stripped := Strip(msfile, Whitespace);
            (|stripped| == 0 || stripped[|stripped| - 1] != '/') ==>
              MomMain(msfile, mode, outdir, download, verbose, cache) ==
              MomMainCorrected(msfile, mode, outdir, download, verbose, cache)
  {
  }
}