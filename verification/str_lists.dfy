/** `input2strlist_nomapfile`, the list-argument parser that
    scripts/make_calibrator_SIP.py and scripts/update_tgt_field.py carry
    identical copies of: a bracketed string is split on commas, and every
    element loses surrounding spaces and quote characters. */
module StrLists {
  import opened Wrappers
  import opened Strings
  import opened PyValues

  /** The characters `strip(' \'"')` removes. */
  const Quotes: set<char> := {' ', '\'', '"'}

  /** The characters `strip('[]')` removes. */
  const Brackets: set<char> := {'[', ']'}

  /** `s.startswith('[') and s.endswith(']')`. */
  predicate Bracketed(s: string) {
    |s| > 0 && s[0] == '[' && s[|s| - 1] == ']'
  }

  /** No element starts or ends with a quote character. */
  predicate Unquoted(names: seq<string>) {
    forall i :: 0 <= i < |names| ==>
      |names[i]| == 0 || (names[i][0] !in Quotes && names[i][|names[i]| - 1] !in Quotes)
  }

  /** Every element stripped of the quote characters. */
  function StripAll(parts: seq<string>): (r: seq<string>)
    ensures |r| == |parts|
    ensures forall i :: 0 <= i < |r| ==> r[i] == Strip(parts[i], Quotes)
  {
    seq(|parts|, i requires 0 <= i < |parts| => Strip(parts[i], Quotes))
  }

  /** Stripped elements are unquoted. */
  lemma StripAllUnquoted(parts: seq<string>)
    ensures Unquoted(StripAll(parts))
  {
    var r := StripAll(parts);
    forall i | 0 <= i < |r|
      ensures |r[i]| == 0 || (r[i][0] !in Quotes && r[i][|r[i]| - 1] !in Quotes)
    {
      assert r[i] == Strip(parts[i], Quotes);
    }
  }

  /** The elements of a bracketed string: one per comma plus one. */
  function BracketedElements(s: string): (r: seq<string>)
    ensures |r| == multiset(s)[','] + 1
    ensures Unquoted(r)
  {
    StripKeepsOthers(s, Brackets, ',');
    var parts := Split(Strip(s, Brackets), ',');
    StripAllUnquoted(parts);
    StripAll(parts)
  }

  /** The elements of a string argument: a bracketed string is split, any
      other string is a single name. */
  function StringElements(s: string): (r: seq<string>)
    ensures Bracketed(s) ==> |r| == multiset(s)[','] + 1
    ensures !Bracketed(s) ==> r == [Strip(s, Quotes)]
    ensures Unquoted(r)
  {
    if Bracketed(s) then BracketedElements(s) else [Strip(s, Quotes)]
  }

  /** `input2strlist_nomapfile`. Only the list's string elements are
      modelled (`str()` of other objects is not). */
  function Input2StrList(v: PyValue): (r: Result<seq<string>, PyException>)
    ensures r.Err? <==> !(v.PyStr? || v.PyList?)
    ensures r.Err? ==> r.error == TypeError
    ensures v.PyStr? && Bracketed(v.s) ==> |r.value| == multiset(v.s)[','] + 1
    ensures v.PyStr? && !Bracketed(v.s) ==> r.value == [Strip(v.s, Quotes)]
    ensures v.PyList? ==> |r.value| == |v.items|
    ensures v.PyList? ==> forall i :: 0 <= i < |v.items| ==> r.value[i] == Strip(v.items[i], Quotes)
    ensures r.Ok? ==> Unquoted(r.value)
  {
    if v.PyStr? then Ok(StringElements(v.s))
    else if v.PyList? then StripAllUnquoted(v.items); Ok(StripAll(v.items))
    else Err(TypeError)
  }

  /** A string argument never yields an empty list: `"[]"` is one empty
      name. */
  lemma StringNeverGivesEmptyList(s: string)
    ensures |Input2StrList(PyStr(s)).value| >= 1
    ensures Input2StrList(PyStr("[]")) == Ok([""])
  {
    EmptyBrackets();
  }

  /** `"[]"` strips to nothing, which splits into one empty element. */
  lemma EmptyBrackets()
    ensures BracketedElements("[]") == [""]
  {
    assert Bracketed("[]");
    assert "[]"[1..] == "]" && "]"[1..] == "";
    assert LStrip("[]", Brackets) == "";
    assert Strip("[]", Brackets) == "";
    assert Split("", ',') == [""];
    assert Strip("", Quotes) == "";
    assert StripAll([""]) == [""];
  }

  /** How Python prints a list of plain strings: `['a', 'b', 'c']`. */
  function PrintedList(names: seq<string>): string {
    "[" + Join(Printed(names), ',') + "]"
  }

  /** The elements of a printed list between the commas: `'a'`, ` 'b'`, ... */
  function Printed(names: seq<string>): (r: seq<string>)
    ensures |r| == |names|
  {
    seq(|names|, i requires 0 <= i < |names| => (if i == 0 then "" else " ") + "'" + names[i] + "'")
  }

  /** A name Python prints between single quotes without escapes, and that
      the parser can give back whole. */
  predicate PlainName(n: string) {
    && |n| > 0
    && ',' !in n && '\'' !in n && '\\' !in n
    && n[0] !in Quotes && n[|n| - 1] !in Quotes
  }

  /** Parsing what Python prints for a non-empty list of plain names gives
      back the names. */
  lemma ParsesPrintedList(names: seq<string>)
    requires |names| > 0
    requires forall i :: 0 <= i < |names| ==> PlainName(names[i])
    ensures Input2StrList(PyStr(PrintedList(names))) == Ok(names)
  {
    var q := Printed(names);
    var j := Join(q, ',');
    PrintedElements(names);
    PrintedJoinQuoted(names);
    ParseBracketed(j);
    SplitJoin(q, ',');
    StripsBack(q, names);
  }

  /** The printed elements hold no comma and strip back to the names. */
  lemma PrintedElements(names: seq<string>)
    requires forall i :: 0 <= i < |names| ==> PlainName(names[i])
    ensures forall i :: 0 <= i < |Printed(names)| ==>
              ',' !in Printed(names)[i] && Strip(Printed(names)[i], Quotes) == names[i]
  {
    var q := Printed(names);
    forall i | 0 <= i < |q|
      ensures ',' !in q[i] && Strip(q[i], Quotes) == names[i]
    {
      PrintedElement(names[i], if i == 0 then "" else " ");
    }
  }

  /** The join of the printed elements starts and ends with a quote. */
  lemma PrintedJoinQuoted(names: seq<string>)
    requires |names| > 0
    requires forall i :: 0 <= i < |names| ==> PlainName(names[i])
    ensures var j := Join(Printed(names), ',');
            |j| > 0 && j[0] == '\'' && j[|j| - 1] == '\''
  {
    var q := Printed(names);
    forall i | 0 <= i < |q|
      ensures |q[i]| > 0 && q[i][|q[i]| - 1] == '\''
    {
      PrintedElement(names[i], if i == 0 then "" else " ");
    }
    PrintedElement(names[0], "");
    JoinEnds(q, ',');
  }

  /** Elements that strip to the names make a list that strips to them. */
  lemma StripsBack(q: seq<string>, names: seq<string>)
    requires |q| == |names|
    requires forall i :: 0 <= i < |q| ==> Strip(q[i], Quotes) == names[i]
    ensures StripAll(q) == names
  {
  }

  /** One printed element strips back to the name. */
  lemma PrintedElement(n: string, pre: string)
    requires PlainName(n)
    requires pre == "" || pre == " "
    ensures var e := pre + "'" + n + "'";
            ',' !in e && |e| > 0 && e[|e| - 1] == '\'' && e[0] == (if pre == "" then '\'' else ' ') &&
            Strip(e, Quotes) == n
  {
    var e := pre + "'" + n + "'";
    assert ',' !in pre && ',' !in "'";
    var tail := n + "'";
    assert LStrip(tail, Quotes) == tail;
    if pre == "" {
      assert e[1..] == tail;
    } else {
      assert e[1..] == "'" + tail;
      assert e[1..][1..] == tail;
    }
    assert LStrip(e, Quotes) == tail;
    assert tail[..|tail| - 1] == n;
    assert RStrip(n, Quotes) == n;
    assert RStrip(tail, Quotes) == n;
  }

  /** Brackets around a text that neither starts nor ends with one parse
      as the text's comma-separated elements. */
  lemma ParseBracketed(j: string)
    requires |j| > 0 && j[0] !in Brackets && j[|j| - 1] !in Brackets
    ensures Input2StrList(PyStr("[" + j + "]")) == Ok(StripAll(Split(j, ',')))
  {
    StripBrackets(j);
  }

  /** Brackets around a text that neither starts nor ends with one strip
      off cleanly. */
  lemma StripBrackets(j: string)
    requires |j| > 0 && j[0] !in Brackets && j[|j| - 1] !in Brackets
    ensures Bracketed("[" + j + "]")
    ensures Strip("[" + j + "]", Brackets) == j
  {
    var s := "[" + j + "]";
    assert s[1..] == j + "]";
    assert LStrip(j + "]", Brackets) == j + "]";
    assert LStrip(s, Brackets) == j + "]";
    assert (j + "]")[..|j|] == j;
    assert RStrip(j, Brackets) == j;
  }
}
