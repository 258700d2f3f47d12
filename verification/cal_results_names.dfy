/** plugins/PipelineStep_makeCalResultsNames.py: the name of a calibrator
    pipeline's results directory, built from the observation names of the
    input files, and the tar-ball name next to it. Loading and saving a
    DataMap become reading the sequence of file names and updating a map
    from mapfile path to the single file name it holds. */
module CalResultsNames {
  import opened Strings

  /** `item.file.split("_")[0]`: everything up to the first '_'. */
  function ObservationName(file: string): (r: string)
    ensures r <= file && '_' !in r
    ensures r == file || file[|r|] == '_'
  {
    var parts := Split(file, '_');
    JoinSplit(file, '_');
    assert |parts| > 1 ==> file == parts[0] + ['_'] + Join(parts[1..], '_');
    parts[0]
  }

  /** The observation name of `<obs>_<rest>` is obs. */
  lemma ObservationNameOfLofarFile(obs: string, rest: string)
    requires '_' !in obs
    ensures ObservationName(obs + "_" + rest) == obs
  {
    var s := obs + "_" + rest;
    var r := ObservationName(s);
    assert s[|obs|] == '_';
    assert forall k :: 0 <= k < |obs| ==> s[k] == obs[k] && s[k] != '_';
  }

  // ---------------------------------------------------------------- the observation list

  /** The loop that appends each observation name unless it is already in
      the list: the names in order of first appearance. */
  function Dedupe(s: seq<string>): (r: seq<string>)
    ensures forall i, j :: 0 <= i < j < |r| ==> r[i] != r[j]
    ensures forall x :: x in r <==> x in s
  {
    if |s| == 0 then []
    else
      var d := Dedupe(s[..|s| - 1]);
      assert forall x :: x in s <==> x in s[..|s| - 1] || x == s[|s| - 1];
      if s[|s| - 1] in d then d else d + [s[|s| - 1]]
  }

  predicate Sorted(s: seq<string>) {
    forall i, j :: 0 <= i < j < |s| ==> LexLe(s[i], s[j])
  }

  /** Insert x into a sorted list before the first element it precedes. */
  function Insert(x: string, s: seq<string>): (r: seq<string>)
    requires Sorted(s)
    ensures Sorted(r)
    ensures multiset(r) == multiset(s) + multiset{x}
  {
    if |s| == 0 then [x]
    else if LexLe(x, s[0]) then
      LeastBelowAll(x, s);
      [x] + s
    else
      LexLeTotal(x, s[0]);
      var t := Insert(x, s[1..]);
      assert s == [s[0]] + s[1..];
      HeadBelowInsert(x, s, t);
      [s[0]] + t
  }

  /** Below the head of a sorted list is below all of it. */
  lemma LeastBelowAll(x: string, s: seq<string>)
    requires Sorted(s) && |s| > 0 && LexLe(x, s[0])
    ensures forall j :: 0 <= j < |s| ==> LexLe(x, s[j])
  {
    forall j | 0 < j < |s|
      ensures LexLe(x, s[j])
    {
      LexLeTransitive(x, s[0], s[j]);
    }
  }

  /** The head of a sorted list is below every element of the tail with
      another element at or above it inserted. */
  lemma HeadBelowInsert(x: string, s: seq<string>, t: seq<string>)
    requires Sorted(s) && |s| > 0 && LexLe(s[0], x)
    requires multiset(t) == multiset(s[1..]) + multiset{x}
    ensures forall k :: 0 <= k < |t| ==> LexLe(s[0], t[k])
  {
    forall k | 0 <= k < |t|
      ensures LexLe(s[0], t[k])
    {
      assert t[k] in multiset(t);
      if t[k] != x {
        assert t[k] in multiset(s[1..]);
        assert t[k] in s[1..];
      }
    }
  }

  /** `list.sort()` on strings: an insertion sort by Python's string order. */
  function Sort(s: seq<string>): (r: seq<string>)
    ensures Sorted(r)
    ensures multiset(r) == multiset(s)
  {
    if |s| == 0 then []
    else
      assert s == s[..|s| - 1] + [s[|s| - 1]];
      Insert(s[|s| - 1], Sort(s[..|s| - 1]))
  }

  /** `observation_list` after the loop and the sort. */
  function ObservationList(files: seq<string>): (r: seq<string>)
    ensures Sorted(r)
    ensures forall k :: 0 <= k < |files| ==> ObservationName(files[k]) in r
  {
    var names := seq(|files|, i requires 0 <= i < |files| => ObservationName(files[i]));
    var d := Dedupe(names);
    var r := Sort(d);
    SameMembers(d, r);
    EveryNameListed(files, names, r);
    r
  }

  lemma EveryNameListed(files: seq<string>, names: seq<string>, r: seq<string>)
    requires |names| == |files| && forall i :: 0 <= i < |files| ==> names[i] == ObservationName(files[i])
    requires forall x :: x in names ==> x in r
    ensures forall k :: 0 <= k < |files| ==> ObservationName(files[k]) in r
  {
    forall k | 0 <= k < |files|
      ensures ObservationName(files[k]) in r
    {
      assert names[k] in names;
    }
  }

  /** Two lists with the same multiset have the same members. */
  lemma SameMembers(a: seq<string>, b: seq<string>)
    requires multiset(b) == multiset(a)
    ensures forall x :: x in b <==> x in a
  {
    forall x
      ensures x in b <==> x in a
    {
      assert x in b <==> x in multiset(b);
      assert x in a <==> x in multiset(a);
    }
  }

  /** The observation list names every input file's observation, once, in
      strictly increasing order. */
  lemma ObservationListSortedDistinct(files: seq<string>)
    ensures var obs := ObservationList(files);
            && (forall i, j :: 0 <= i < j < |obs| ==> LexLe(obs[i], obs[j]) && obs[i] != obs[j])
            && (forall k :: 0 <= k < |files| ==> ObservationName(files[k]) in obs)
            && (forall x :: x in obs ==> exists k :: 0 <= k < |files| && ObservationName(files[k]) == x)
  {
    var names := seq(|files|, i requires 0 <= i < |files| => ObservationName(files[i]));
    var d := Dedupe(names);
    var obs := Sort(d);
    assert forall x :: x in obs <==> x in d by {
      forall x
        ensures x in obs <==> x in d
      {
        assert x in obs <==> x in multiset(obs);
        assert x in d <==> x in multiset(d);
      }
    }
    forall i, j | 0 <= i < j < |obs|
      ensures obs[i] != obs[j]
    {
      DistinctHasNoRepeat(d, obs, i, j);
    }
    forall k | 0 <= k < |files|
      ensures ObservationName(files[k]) in obs
    {
      assert names[k] in names;
    }
    forall x | x in obs
      ensures exists k :: 0 <= k < |files| && ObservationName(files[k]) == x
    {
      assert x in names;
      var k :| 0 <= k < |names| && names[k] == x;
      assert ObservationName(files[k]) == x;
    }
  }

  /** A permutation of a repetition-free list has no repetition. */
  lemma DistinctHasNoRepeat(d: seq<string>, p: seq<string>, i: int, j: int)
    requires forall a, b :: 0 <= a < b < |d| ==> d[a] != d[b]
    requires multiset(p) == multiset(d)
    requires 0 <= i < j < |p|
    ensures p[i] != p[j]
  {
    var x := p[i];
    DistinctCount(d, x);
    assert p == p[..i] + [p[i]] + p[i + 1..j] + [p[j]] + p[j + 1..];
    assert multiset(p)[x] >= 1 + multiset([p[j]])[x];
  }

  /** Each value occurs at most once in a repetition-free list. */
  lemma {:induction false} DistinctCount(d: seq<string>, x: string)
    requires forall a, b :: 0 <= a < b < |d| ==> d[a] != d[b]
    ensures multiset(d)[x] <= 1
  {
    if |d| > 0 {
      var p := d[..|d| - 1];
      DistinctCount(p, x);
      assert d == p + [d[|d| - 1]];
      if d[|d| - 1] == x {
        assert x !in p;
        assert multiset(p)[x] == 0;
      }
    }
  }

  // ---------------------------------------------------------------- names

  /** The loop `newname += obsname + "_"`. */
  function Underscored(obs: seq<string>): (u: string)
    ensures |obs| == 0 <==> |u| == 0
    ensures |obs| > 0 ==> obs[0] <= u && u[|u| - 1] == '_'
  {
    if |obs| == 0 then "" else obs[0] + "_" + Underscored(obs[1..])
  }

  /** `newname.strip('_') + extension`. */
  function NewName(obs: seq<string>, extension: string): (n: string)
    ensures |n| >= |extension| && n[|n| - |extension|..] == extension
    ensures var stem := n[..|n| - |extension|];
            |stem| == 0 || (stem[0] != '_' && stem[|stem| - 1] != '_')
  {
    var stem := Strip(Underscored(obs), {'_'});
    var n := stem + extension;
    assert n[..|n| - |extension|] == stem;
    n
  }

  /** With no empty observation name, the results name is the observation
      names joined by '_', then the extension; the names split back out of
      it. */
  lemma NewNameJoinsObservations(obs: seq<string>, extension: string)
    requires |obs| > 0
    requires forall i :: 0 <= i < |obs| ==> |obs[i]| > 0 && '_' !in obs[i]
    ensures NewName(obs, extension) == Join(obs, '_') + extension
    ensures Split(NewName(obs, extension)[..|NewName(obs, extension)| - |extension|], '_') == obs
  {
    var j := Join(obs, '_');
    UnderscoredIsJoin(obs);
    JoinEnds(obs, '_');
    assert obs[0][0] in obs[0];
    assert obs[|obs| - 1][|obs[|obs| - 1]| - 1] in obs[|obs| - 1];
    var u := j + "_";
    assert u[1..] == j[1..] + "_";
    assert LStrip(u, {'_'}) == u;
    assert u[..|u| - 1] == j;
    assert RStrip(j, {'_'}) == j;
    assert Strip(u, {'_'}) == j;
    assert (j + extension)[..|j|] == j;
    SplitJoin(obs, '_');
  }

  lemma {:induction false} UnderscoredIsJoin(obs: seq<string>)
    requires |obs| > 0
    ensures Underscored(obs) == Join(obs, '_') + "_"
  {
    if |obs| > 1 {
      UnderscoredIsJoin(obs[1..]);
    }
  }

  /** `os.path.join(ingest_directory, newname + '.tgz')`. */
  function TarName(newname: string, ingestDirectory: string): (t: string)
    ensures |t| >= 4 && t[|t| - 4..] == ".tgz"
    ensures '/' !in newname ==> Basename(t) == newname + ".tgz"
  {
    TarBasename(newname, ingestDirectory);
    PathJoin(ingestDirectory, newname + ".tgz")
  }

  lemma TarBasename(newname: string, ingestDirectory: string)
    ensures '/' !in newname ==> Basename(PathJoin(ingestDirectory, newname + ".tgz")) == newname + ".tgz"
  {
    if '/' !in newname {
      assert '/' !in ".tgz";
      BasenameOfJoin(ingestDirectory, newname + ".tgz");
    }
  }

  /** The input files' names are usually absolute paths, so the results
      name is one too, and `os.path.join` then drops the ingest
      directory. */
  lemma TarNameOfAbsoluteName(newname: string, ingestDirectory: string)
    requires |newname| > 0 && newname[0] == '/'
    ensures TarName(newname, ingestDirectory) == newname + ".tgz"
  {
  }

  // ---------------------------------------------------------------- the mapfiles

  /** The two mapfiles written and the `result` dictionary returned. */
  datatype PluginResult = PluginResult(mapfiles: map<string, string>, dirname: string, tarname: string)

  const DirnameMapfile := "makeCalResultsDirname.mapfile"

  /** `plugin_main` as written: both mapfiles are saved under the same
      name, so the second save replaces the first. */
  function PluginMainAsWritten(files: seq<string>, extension: string, ingestDirectory: string,
                               mapfileDir: string, mapfiles: map<string, string>): (r: PluginResult)
    ensures r.dirname == r.tarname
    ensures r.dirname in r.mapfiles
  {
    var newname := NewName(ObservationList(files), extension);
    var tarName := TarName(newname, ingestDirectory);
    var fileid := PathJoin(mapfileDir, DirnameMapfile);
    var m1 := mapfiles[fileid := newname];
    var fileidTar := PathJoin(mapfileDir, DirnameMapfile);
    PluginResult(m1[fileidTar := tarName], fileid, fileidTar)
  }

  /** The mapfile returned as 'dirname' holds the tar-ball name, never the
      directory name: the directory name is lost. */
  lemma DirnameMapfileOverwritten(files: seq<string>, extension: string, ingestDirectory: string,
                                  mapfileDir: string, mapfiles: map<string, string>)
    ensures var r := PluginMainAsWritten(files, extension, ingestDirectory, mapfileDir, mapfiles);
            var newname := NewName(ObservationList(files), extension);
            r.mapfiles[r.dirname] == TarName(newname, ingestDirectory) != newname
  {
    var newname := NewName(ObservationList(files), extension);
    var t := TarName(newname, ingestDirectory);
    assert |t| >= |newname| + 4;
  }

  const TarnameMapfile := "makeCalResultsTarname.mapfile"

  /** `plugin_main` with the tar-ball mapfile saved under a name of its own. */
  function PluginMain(files: seq<string>, extension: string, ingestDirectory: string,
                      mapfileDir: string, mapfiles: map<string, string>): (r: PluginResult)
    ensures r.dirname in r.mapfiles && r.tarname in r.mapfiles
    ensures forall p :: p in mapfiles && p != r.dirname && p != r.tarname ==> p in r.mapfiles && r.mapfiles[p] == mapfiles[p]
  {
    var newname := NewName(ObservationList(files), extension);
    var tarName := TarName(newname, ingestDirectory);
    var fileid := PathJoin(mapfileDir, DirnameMapfile);
    var fileidTar := PathJoin(mapfileDir, TarnameMapfile);
    PluginResult(mapfiles[fileid := newname][fileidTar := tarName], fileid, fileidTar)
  }

  /** Each mapfile holds its own name: the directory name under 'dirname'
      and the tar-ball name under 'tarname'. */
  lemma PluginMainKeepsBothNames(files: seq<string>, extension: string, ingestDirectory: string,
                                 mapfileDir: string, mapfiles: map<string, string>)
    ensures var r := PluginMain(files, extension, ingestDirectory, mapfileDir, mapfiles);
            var newname := NewName(ObservationList(files), extension);
            && r.dirname != r.tarname
            && r.mapfiles[r.dirname] == newname
            && r.mapfiles[r.tarname] == TarName(newname, ingestDirectory)
  {
    MapfilePathsDiffer(mapfileDir);
  }

  lemma MapfilePathsDiffer(mapfileDir: string)
    ensures PathJoin(mapfileDir, DirnameMapfile) != PathJoin(mapfileDir, TarnameMapfile)
  {
    assert |DirnameMapfile| == |TarnameMapfile|;
    assert DirnameMapfile[14] != TarnameMapfile[14];
    JoinEndsWithName(mapfileDir, DirnameMapfile);
    JoinEndsWithName(mapfileDir, TarnameMapfile);
  }

  /** A relative name joined to a directory ends the path. */
  lemma JoinEndsWithName(dir: string, name: string)
    requires |name| > 0 && name[0] != '/'
    ensures var p := PathJoin(dir, name);
            |p| >= |name| && p[|p| - |name|..] == name
  {
  }
}
