/** scripts/update_tgt_field.py: the Measurement Sets whose OBSERVATION
    table gets the new target field. The list parser is the one of
    `StrLists`; the table write itself is not modelled. */
module UpdateTgtField {
  import opened Wrappers
  import opened Strings
  import opened PyValues
  import opened StrLists

  /** Every name with all trailing '/' removed: what remains is a prefix
      of the name, does not end in '/', and only slashes were dropped. */
  function TrimAll(names: seq<string>): (r: seq<string>)
    ensures |r| == |names|
    ensures forall i :: 0 <= i < |r| ==>
              && r[i] <= names[i]
              && (|r[i]| == 0 || r[i][|r[i]| - 1] != '/')
              && forall k :: |r[i]| <= k < |names[i]| ==> names[i][k] == '/'
  {
    seq(|names|, i requires 0 <= i < |names| => RStrip(names[i], {'/'}))
  }

  /** The names `main` opens: every parsed name, trimmed. */
  function TargetTables(mses: PyValue): (r: Result<seq<string>, PyException>)
    ensures r.Err? <==> Input2StrList(mses).Err?
    ensures r.Ok? ==> r.value == TrimAll(Input2StrList(mses).value)
  {
    var names :- Input2StrList(mses);
    Ok(TrimAll(names))
  }

  /** A bracketed string names comma-count + 1 tables, and a plain string
      exactly one. */
  lemma TargetTableCount(s: string)
    ensures Bracketed(s) ==> |TargetTables(PyStr(s)).value| == multiset(s)[','] + 1
    ensures !Bracketed(s) ==> |TargetTables(PyStr(s)).value| == 1
  {
  }

  /** Trimming trailing slashes is idempotent: a name already trimmed is
      opened as given. */
  lemma TrimmedNameIsKept(n: string)
    requires |n| == 0 || n[|n| - 1] != '/'
    ensures RStrip(n + "/", {'/'}) == n
    ensures RStrip(n, {'/'}) == n
  {
    assert (n + "/")[..|n|] == n;
  }
}
