/** The argument handling of scripts/make_calibrator_SIP.py: optional parset
    values, the checks `main` makes before building the SIP, and the name of
    the xml file it writes. Reading the parset and the input SIPs, and the
    file system, are passed in as functions. */
module CalibratorSip {
  import opened Wrappers
  import opened Strings
  import opened PyValues
  import opened StrLists

  /** `parset_to_int` / `parset_to_bool`: the key's string value "NONE" in
      any case means None; otherwise the value is read by the parset's own
      `getInt`/`getBool` (`read`). A missing key is a KeyError. */
  function ParsetOptional<T>(parset: map<string, string>, key: string,
                             read: string -> Result<T, PyException>): (r: Result<Option<T>, PyException>)
    ensures r == Err(KeyError) <== key !in parset
    ensures key in parset && r.Ok? && r.value.Some? ==> read(parset[key]) == Ok(r.value.value)
    ensures key in parset && !CaseVariant(parset[key], "NONE") ==>
              (r.Err? <==> read(parset[key]).Err?)
  {
    if key !in parset then Err(KeyError)
    else if Upper(parset[key]) == "NONE" then Ok(None)
    else
      var x :- read(parset[key]);
      Ok(Some(x))
  }

  /** The value is None exactly when the key holds "none" in some mix of
      cases. */
  lemma ParsetNoneIff<T>(parset: map<string, string>, key: string, read: string -> Result<T, PyException>)
    ensures ParsetOptional(parset, key, read) == Ok(None) <==> key in parset && CaseVariant(parset[key], "NONE")
  {
    if key in parset {
      UpperMatchesIff(parset[key], "NONE");
    }
  }

  /** `cal_results_path.rstrip('/') + ".xml"`. */
  function NewXmlName(calResultsPath: string): (r: string)
    ensures |r| >= 4 && r[|r| - 4..] == ".xml"
    ensures var stem := r[..|r| - 4];
            && stem <= calResultsPath
            && (|stem| == 0 || stem[|stem| - 1] != '/')
            && forall k :: |stem| <= k < |calResultsPath| ==> calResultsPath[k] == '/'
  {
    var stem := RStrip(calResultsPath, {'/'});
    var r := stem + ".xml";
    assert r[..|r| - 4] == stem;
    r
  }

  /** Trailing slashes on the results path do not change the xml name. */
  lemma NewXmlNameIgnoresTrailingSlash(p: string)
    ensures NewXmlName(p + "/") == NewXmlName(p)
  {
    assert (p + "/")[..|p|] == p;
  }

  /** `main` up to the SIP construction: the input SIP files are read
      (`readable` is whether `open` succeeds), then the results path, the
      number of input SIPs, the pipeline name and the parset path are
      checked in that order. Success gives the SIP files and the xml name. */
  function CalibratorArguments(calResultsPath: string, inputSipList: PyValue, pipelineName: string,
                               parsetPath: string, pathExists: string -> bool, readable: string -> bool)
    : (r: Result<(seq<string>, string), PyException>)
    ensures r.Ok? ==> Input2StrList(inputSipList) == Ok(r.value.0)
    ensures r.Ok? ==>
              && |r.value.0| > 0
              && |pipelineName| > 0
              && pathExists(calResultsPath) && pathExists(parsetPath)
              && (forall i :: 0 <= i < |r.value.0| ==> readable(r.value.0[i]))
              && r.value.1 == NewXmlName(calResultsPath)
    ensures Input2StrList(inputSipList).Err? ==> r == Err(Input2StrList(inputSipList).error)
    ensures Input2StrList(inputSipList).Ok? ==>
              (r == Err(IOError) <==>
                 exists i :: 0 <= i < |Input2StrList(inputSipList).value| && !readable(Input2StrList(inputSipList).value[i]))
    ensures Input2StrList(inputSipList).Ok? &&
            (forall i :: 0 <= i < |Input2StrList(inputSipList).value| ==> readable(Input2StrList(inputSipList).value[i])) ==>
              (r == Err(ValueError) <==>
                 !pathExists(calResultsPath) || |Input2StrList(inputSipList).value| == 0 ||
                 |pipelineName| == 0 || !pathExists(parsetPath))
    ensures (&& Input2StrList(inputSipList).Ok?
             && (forall i :: 0 <= i < |Input2StrList(inputSipList).value| ==> readable(Input2StrList(inputSipList).value[i]))
             && pathExists(calResultsPath) && |Input2StrList(inputSipList).value| > 0
             && |pipelineName| > 0 && pathExists(parsetPath)) ==>
              r == Ok((Input2StrList(inputSipList).value, NewXmlName(calResultsPath)))
  {
    var files :- Input2StrList(inputSipList);
    if exists i :: 0 <= i < |files| && !readable(files[i]) then Err(IOError)
    else if !pathExists(calResultsPath) then Err(ValueError)
    else if |files| == 0 then Err(ValueError)
    else if |pipelineName| == 0 then Err(ValueError)
    else if !pathExists(parsetPath) then Err(ValueError)
    else Ok((files, NewXmlName(calResultsPath)))
  }

  /** The "no valid input SIPs" error is reachable only from an empty Python
      list: a string always names at least one file. */
  lemma NoInputSipsOnlyFromEmptyList(calResultsPath: string, s: string, pipelineName: string,
                                     parsetPath: string, pathExists: string -> bool, readable: string -> bool)
    requires pathExists(calResultsPath) && |pipelineName| > 0 && pathExists(parsetPath)
    requires forall i :: 0 <= i < |Input2StrList(PyStr(s)).value| ==> readable(Input2StrList(PyStr(s)).value[i])
    ensures CalibratorArguments(calResultsPath, PyStr(s), pipelineName, parsetPath, pathExists, readable).Ok?
  {
    StringNeverGivesEmptyList(s);
  }
}
