/**
 * The parsing half of the watcher's watch-list loader: the file is a list of
 * lines, each non-blank one naming a watched output as `<txid>,<output_index>`.
 * Opening and reading the file is not modelled; the loader receives its lines
 * (each still carrying its line terminator, as Python's file iteration yields them).
 */
module WatchList {
  import opened Wrappers
  import opened Text

  /** A watched output: the id of the transaction that created it and its index among that transaction's outputs. */
  type Outpoint = (string, int)

  /** Why loading the watch-list raised. */
  datatype LoadError =
    | FieldCount(count: nat)    // `txid, output_index = ...split(",")` got `count` fields instead of two
    | BadIndex(field: string)   // `int(output_index)` rejected `field`

  /** A line that `line.strip()` empties, which the loader skips. */
  predicate IsBlank(line: string) {
    Strip(line) == []
  }

  /** One line of the file: `Ok(None)` for a blank line, `Ok(Some(pair))` for a well-formed one. */
  function ParseLine(line: string): (r: Result<Option<Outpoint>, LoadError>)
    ensures r == Ok(None) <==> IsBlank(line)
  {
    if IsBlank(line) then Ok(None)
    else
      var fields := Split(Strip(line), ',');
      if |fields| != 2 then Err(FieldCount(|fields|))
      else
        match ParseInt(fields[1])
        case None => Err(BadIndex(fields[1]))
        case Some(index) => Ok(Some((fields[0], index)))
  }

  /**
   * Folds the per-line outcomes in file order into one set: the first failing line
   * decides the error, and no partial set escapes.
   */
  function Collect(parsed: seq<Result<Option<Outpoint>, LoadError>>): (r: Result<set<Outpoint>, LoadError>)
    ensures r.Ok? <==> forall i :: 0 <= i < |parsed| ==> parsed[i].Ok?
    ensures r.Ok? ==> forall p :: p in r.value <==> Ok(Some(p)) in parsed
    ensures r.Err? ==> exists i :: 0 <= i < |parsed| && parsed[i] == Err(r.error) &&
                                   (forall j :: 0 <= j < i ==> parsed[j].Ok?)
  {
    if parsed == [] then Ok({})
    else
      match parsed[0]
      case Err(e) => Err(e)
      case Ok(first) =>
        var rest := Collect(parsed[1..]);
        assert forall x :: x in parsed <==> x == parsed[0] || x in parsed[1..];
        if rest.Err? then
          ghost var i :| 0 <= i < |parsed[1..]| && parsed[1..][i] == Err(rest.error) &&
                         (forall j :: 0 <= j < i ==> parsed[1..][j].Ok?);
          assert parsed[i + 1] == Err(rest.error);
          rest
        else
          Ok(if first.Some? then {first.value} + rest.value else rest.value)
  }

  /** `f` applied to each line, in file order. */
  function MapLines<T>(f: string -> T, lines: seq<string>): (r: seq<T>)
    ensures |r| == |lines|
  {
    if lines == [] then [] else [f(lines[0])] + MapLines(f, lines[1..])
  }

  /** Position `i` of the mapped lines is `f` of line `i`. */
  lemma {:induction false} MapLinesAt<T>(f: string -> T, lines: seq<string>, i: nat)
    requires i < |lines|
    ensures MapLines(f, lines)[i] == f(lines[i])
  {
    if i > 0 {
      MapLinesAt(f, lines[1..], i - 1);
    }
  }

  /** Mapping the lines of two files read one after the other maps each file in turn. */
  lemma {:induction false} MapLinesAppend<T>(f: string -> T, before: seq<string>, after: seq<string>)
    ensures MapLines(f, before + after) == MapLines(f, before) + MapLines(f, after)
  {
    if before != [] {
      assert (before + after)[1..] == before[1..] + after;
      MapLinesAppend(f, before[1..], after);
      assert (before + after)[0] == before[0];
    } else {
      assert before + after == after;
    }
  }

  /** The outcome of each line, in file order. */
  function ParseLines(lines: seq<string>): (parsed: seq<Result<Option<Outpoint>, LoadError>>)
    ensures |parsed| == |lines|
  {
    MapLines(ParseLine, lines)
  }

  /** The outcome at position `i` is the outcome of line `i`. */
  lemma ParseLinesAt(lines: seq<string>, i: nat)
    requires i < |lines|
    ensures ParseLines(lines)[i] == ParseLine(lines[i])
  {
    MapLinesAt(ParseLine, lines, i);
  }

  /**
   * Loads the whole watch-list, line by line in file order (`ParseLines(lines)[i]`
   * is the outcome of line `i`): succeeds exactly when every line parses, and then
   * holds exactly the pairs the non-blank lines name; otherwise it fails with the
   * error of the first line that does not parse.
   */
  function LoadWatchedOutputs(lines: seq<string>): (r: Result<set<Outpoint>, LoadError>)
    ensures r.Ok? <==> forall i :: 0 <= i < |lines| ==> ParseLines(lines)[i].Ok?
    ensures r.Ok? ==> forall p :: p in r.value <==> Ok(Some(p)) in ParseLines(lines)
    ensures r.Err? ==> exists i :: 0 <= i < |lines| && ParseLines(lines)[i] == Err(r.error) &&
                                   (forall j :: 0 <= j < i ==> ParseLines(lines)[j].Ok?)
  {
    CollectOutcomes(ParseLines(lines), |lines|);
    Collect(ParseLines(lines))
  }

  /**
   * `Collect`'s contract, restated for outcomes counted by the number of lines they
   * came from. `LoadWatchedOutputs` goes through it so that proving its contract
   * never opens `ParseLine`, which otherwise makes that proof slow and unstable.
   */
  lemma CollectOutcomes(parsed: seq<Result<Option<Outpoint>, LoadError>>, n: nat)
    requires |parsed| == n
    ensures Collect(parsed).Ok? <==> forall i :: 0 <= i < n ==> parsed[i].Ok?
    ensures Collect(parsed).Ok? ==> forall p :: p in Collect(parsed).value <==> Ok(Some(p)) in parsed
    ensures Collect(parsed).Err? ==> exists i :: 0 <= i < n && parsed[i] == Err(Collect(parsed).error) &&
                                                 (forall j :: 0 <= j < i ==> parsed[j].Ok?)
  {
  }

  /** A non-blank line that does not parse (wrong field count, non-integer index) makes the whole load fail. */
  lemma MalformedLineFailsLoad(lines: seq<string>, i: nat)
    requires i < |lines| && !IsBlank(lines[i])
    requires var fields := Split(Strip(lines[i]), ',');
             |fields| != 2 || ParseInt(fields[1]).None?
    ensures LoadWatchedOutputs(lines).Err?
  {
    ParseLinesAt(lines, i);
    assert ParseLine(lines[i]).Err?;
  }

  /** A skipped line contributes nothing to the fold, wherever it stands. */
  lemma {:induction false} CollectSkipsNone(before: seq<Result<Option<Outpoint>, LoadError>>,
                                            after: seq<Result<Option<Outpoint>, LoadError>>)
    ensures Collect(before + [Ok(None)] + after) == Collect(before + after)
  {
    if before == [] {
      assert before + [Ok(None)] + after == [Ok(None)] + after;
      assert before + after == after;
      assert ([Ok(None)] + after)[1..] == after;
    } else {
      CollectSkipsNone(before[1..], after);
      assert (before + [Ok(None)] + after)[1..] == before[1..] + [Ok(None)] + after;
      assert (before + after)[1..] == before[1..] + after;
    }
  }

  lemma ParseLinesAppend(before: seq<string>, after: seq<string>)
    ensures ParseLines(before + after) == ParseLines(before) + ParseLines(after)
  {
    MapLinesAppend(ParseLine, before, after);
  }

  /**
   * `str.strip()` cuts U+001C..U+001F but `int()` does not skip them, so such a
   * character between the comma and the index makes the line, and so the load, fail.
   */
  lemma SeparatorBeforeIndexFails()
    ensures ParseLine("abc,\U{1C}0\n") == Err(BadIndex("\U{1C}0"))
    ensures LoadWatchedOutputs(["abc,\U{1C}0\n"]).Err?
  {
    SeparatorLineFields();
    SeparatorIndexRejected("\U{1C}0");
    MalformedLineFailsLoad(["abc,\U{1C}0\n"], 0);
  }

  lemma SeparatorLineFields()
    ensures Strip("abc,\U{1C}0\n") == "abc,\U{1C}0"
    ensures Split("abc,\U{1C}0", ',') == ["abc", "\U{1C}0"]
  {
    var x := "abc,\U{1C}0";
    assert "abc,\U{1C}0\n" == x + ['\n'];
    assert x[0] == 'a' && x[|x| - 1] == '0';
    StripTerminated(x);
    assert Join(["abc", "\U{1C}0"], ',') == x;
    SplitJoin(["abc", "\U{1C}0"], ',');
  }

  /** `int()` rejects text that starts with one of U+001C..U+001F, whatever follows. */
  lemma SeparatorIndexRejected(t: string)
    requires t != [] && '\U{1C}' <= t[0] <= '\U{1F}'
    ensures ParseInt(t) == None
  {
    assert !IsIntSpace(t[0]);
    var r := IntTrim(t);
    var k :| CutAt(t, r, k, IsIntSpace);
    assert k == 0 && r != [];
    assert r[0] == t[0];
  }

  /** Blank lines anywhere in the file change nothing, not even which error a later line raises. */
  lemma BlankLineIgnored(before: seq<string>, blank: string, after: seq<string>)
    requires IsBlank(blank)
    ensures LoadWatchedOutputs(before + [blank] + after) == LoadWatchedOutputs(before + after)
  {
    ParseLinesAppend(before + [blank], after);
    ParseLinesAppend(before, [blank]);
    ParseLinesAppend(before, after);
    assert ParseLine(blank) == Ok(None);
    ParseLinesAt([blank], 0);
    assert ParseLines([blank]) == [Ok(None)];
    CollectSkipsNone(ParseLines(before), ParseLines(after));
  }

  /** A transaction id as it appears in practice: no comma and no whitespace in it. */
  predicate PlainTxid(txid: string) {
    forall i :: 0 <= i < |txid| ==> txid[i] != ',' && !IsSpace(txid[i])
  }

  /** The line that names `p` in the watch-list file. */
  function FormatLine(p: Outpoint): string {
    p.0 + [','] + Show(p.1) + ['\n']
  }

  /** A watch-list file naming each of `ps` on its own line. */
  function Format(ps: seq<Outpoint>): (lines: seq<string>)
    ensures |lines| == |ps| && forall i :: 0 <= i < |ps| ==> lines[i] == FormatLine(ps[i])
  {
    seq(|ps|, i requires 0 <= i < |ps| => FormatLine(ps[i]))
  }

  /** A formatted line parses back to the pair it was made from. */
  lemma ParseFormatLine(p: Outpoint)
    requires PlainTxid(p.0)
    ensures ParseLine(FormatLine(p)) == Ok(Some(p))
  {
    StripFormatLine(p);
    SplitFormatLine(p);
    ParseShow(p.1);
  }

  /** Stripping a formatted line leaves `txid,index`. */
  lemma StripFormatLine(p: Outpoint)
    requires PlainTxid(p.0)
    ensures Strip(FormatLine(p)) == p.0 + [','] + Show(p.1)
  {
    var x := p.0 + [','] + Show(p.1);
    assert FormatLine(p) == x + ['\n'];
    FormatEdges(p);
    StripTerminated(x);
  }

  /** `txid,index` neither starts nor ends with whitespace. */
  lemma FormatEdges(p: Outpoint)
    requires PlainTxid(p.0)
    ensures var x := p.0 + [','] + Show(p.1);
            !IsSpace(x[0]) && !IsSpace(x[|x| - 1])
  {
    var index := Show(p.1);
    var x := p.0 + [','] + index;
    assert x[|x| - 1] == index[|index| - 1];
    if p.0 != [] {
      assert x[0] == p.0[0];
    } else {
      assert x[0] == ',';
    }
  }

  /** A line whose text has no whitespace at either end strips back to that text. */
  lemma StripTerminated(x: string)
    requires x != [] && !IsSpace(x[0]) && !IsSpace(x[|x| - 1])
    ensures Strip(x + ['\n']) == x
  {
    StripTrailingSpace(x, '\n');
    StripNoEdgeSpace(x);
  }

  /** Splitting `txid,index` at the comma gives the two fields back. */
  lemma SplitFormatLine(p: Outpoint)
    requires PlainTxid(p.0)
    ensures Split(p.0 + [','] + Show(p.1), ',') == [p.0, Show(p.1)]
  {
    assert Join([p.0, Show(p.1)], ',') == p.0 + [','] + Show(p.1);
    SplitJoin([p.0, Show(p.1)], ',');
  }

  /** Loading a file written by `Format` gives back exactly the pairs written. */
  lemma LoadFormat(ps: seq<Outpoint>)
    requires forall i :: 0 <= i < |ps| ==> PlainTxid(ps[i].0)
    ensures LoadWatchedOutputs(Format(ps)) == Ok(set i | 0 <= i < |ps| :: ps[i])
  {
    var lines := Format(ps);
    var parsed := ParseLines(lines);
    forall i | 0 <= i < |ps| ensures parsed[i] == Ok(Some(ps[i])) {
      assert lines[i] == FormatLine(ps[i]);
      ParseFormatLine(ps[i]);
      ParseLinesAt(lines, i);
    }
    CollectAllParsed(parsed, ps);
  }

  /** When every line names a pair, the load is the set of the pairs named. */
  lemma CollectAllParsed(parsed: seq<Result<Option<Outpoint>, LoadError>>, ps: seq<Outpoint>)
    requires |parsed| == |ps| && forall i :: 0 <= i < |ps| ==> parsed[i] == Ok(Some(ps[i]))
    ensures Collect(parsed) == Ok(set i | 0 <= i < |ps| :: ps[i])
  {
    var r := Collect(parsed);
    var want := set i | 0 <= i < |ps| :: ps[i];
    assert r.Ok?;
    forall p ensures p in r.value <==> p in want {
      if p in r.value {
        var i :| 0 <= i < |parsed| && parsed[i] == Ok(Some(p));
        assert ps[i] == p;
      }
      if p in want {
        var i :| 0 <= i < |ps| && ps[i] == p;
        assert parsed[i] == Ok(Some(p));
      }
    }
    assert r.value == want;
  }
}
