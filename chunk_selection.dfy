/** Latest-chunk selection (`get_latest_data_names`): among the chunk files
    found in the input folder, keep those of the most recent timestamp. The
    directory listing (`glob`) is an input: `matched` is the list of names
    it returned. */
module ChunkSelection {
  import opened Outcome
  import opened StringOrder
  import opened StrSplit

  /** The timestamp field of a chunk name, `f.split(prefix)[1].split("_")[1]`:
      the second `_`-separated field of the text between the first and the
      second occurrence of `prefix` (or the end of the name). */
  function Timestamp(f: string, prefix: string): Result<string>
  {
    if |prefix| == 0 then Err(EmptySeparator)
    else
      var parts := Split(f, prefix);
      if |parts| < 2 then Err(MalformedName(f))
      else
        var fields := Split(parts[1], "_");
        if |fields| < 2 then Err(MalformedName(f)) else Ok(fields[1])
  }

  /** The list comprehension over the sorted names: one timestamp per name,
      in order; the first name without one aborts with its error. */
  function Timestamps(files: seq<string>, prefix: string): (r: Result<seq<string>>)
    ensures r.Ok? <==> forall i :: 0 <= i < |files| ==> Timestamp(files[i], prefix).Ok?
    ensures r.Ok? ==> |r.value| == |files|
    ensures r.Ok? ==> forall i :: 0 <= i < |files| ==> r.value[i] == Timestamp(files[i], prefix).value
    ensures r.Err? ==>
              exists i :: 0 <= i < |files| && Timestamp(files[i], prefix) == Err(r.error) &&
                          (forall j :: 0 <= j < i ==> Timestamp(files[j], prefix).Ok?)
  {
    if files == [] then Ok([])
    else
      var t :- Timestamp(files[0], prefix);
      var rest :- Timestamps(files[1..], prefix);
      Ok([t] + rest)
  }

  /** `sorted(list(set(ts)))[-1]`: an `IndexError` when there is no timestamp. */
  function Latest(ts: seq<string>): Result<string>
  {
    var ordered := SortStrings(Distinct(ts));
    if |ordered| == 0 then Err(NoDataFound) else Ok(ordered[|ordered| - 1])
  }

  /** The timestamp the function settles on for the (sorted) names. */
  function LatestTimestamp(files: seq<string>, prefix: string): Result<string>
  {
    var ts :- Timestamps(files, prefix);
    Latest(ts)
  }

  /** `[f for f in files if t in f]`. */
  function Select(files: seq<string>, t: string): seq<string>
  {
    if files == [] then []
    else (if Contains(files[0], t) then [files[0]] else []) + Select(files[1..], t)
  }

  /** `get_latest_data_names`, given the names the directory listing matched. */
  function LatestDataNames(matched: seq<string>, prefix: string): Result<seq<string>>
  {
    var files := SortStrings(matched);
    var t :- LatestTimestamp(files, prefix);
    Ok(Select(files, t))
  }

  /** `a` is `b` with some elements left out, the rest in their order. */
  predicate SubsequenceOf(a: seq<string>, b: seq<string>)
    decreases |b|
  {
    a == [] || (b != [] && ((a[0] == b[0] && SubsequenceOf(a[1..], b[1..])) || SubsequenceOf(a, b[1..])))
  }

  /** The extracted timestamp is a substring of the name it came from. */
  lemma TimestampInName(f: string, prefix: string)
    requires Timestamp(f, prefix).Ok?
    ensures Contains(f, Timestamp(f, prefix).value)
  {
    var parts := Split(f, prefix);
    SplitPieceInString(f, prefix, 1);
    SplitPieceInString(parts[1], "_", 1);
    ContainsTransitive(f, parts[1], Split(parts[1], "_")[1]);
  }

  /** A name fails to yield a timestamp exactly when the prefix is empty,
      does not occur in it, or is not followed by two `_`-separated fields. */
  lemma TimestampFails(f: string, prefix: string)
    ensures Timestamp(f, prefix) == Err(EmptySeparator) <==> |prefix| == 0
    ensures |prefix| > 0 ==> (Timestamp(f, prefix).Err? <==>
      (!Contains(f, prefix) || (|Split(f, prefix)| >= 2 && !Contains(Split(f, prefix)[1], "_"))))
  {
    if |prefix| > 0 {
      SplitCount(f, prefix);
      var parts := Split(f, prefix);
      if |parts| >= 2 {
        SplitCount(parts[1], "_");
      }
    }
  }

  /** The selected timestamp is one of the timestamps and the greatest of
      them in Python's string order; there is none only for an empty list. */
  lemma LatestIsGreatest(ts: seq<string>)
    ensures Latest(ts).Err? <==> ts == []
    ensures Latest(ts).Ok? ==> Latest(ts).value in ts
    ensures Latest(ts).Ok? ==> forall u :: u in ts ==> LessEq(u, Latest(ts).value)
  {
    var d := Distinct(ts);
    var ordered := SortStrings(d);
    SortStringsSorted(d);
    SortStringsSameNames(d);
    if ts != [] {
      assert ts[0] in ordered;
      var last := ordered[|ordered| - 1];
      forall u | u in ts ensures LessEq(u, last) {
        assert u in ordered;
        var j :| 0 <= j < |ordered| && ordered[j] == u;
        if j == |ordered| - 1 { LessEqTotal(u, u); }
      }
    }
  }

  lemma {:induction false} SelectSpec(files: seq<string>, t: string)
    ensures forall y :: y in Select(files, t) <==> y in files && Contains(y, t)
    ensures SubsequenceOf(Select(files, t), files)
    ensures Sorted(files) ==> Sorted(Select(files, t))
    ensures forall y :: multiset(Select(files, t))[y] == if Contains(y, t) then multiset(files)[y] else 0
  {
    SelectCounts(files, t);
    if files != [] {
      var rest := Select(files[1..], t);
      SelectSpec(files[1..], t);
      assert files == [files[0]] + files[1..];
      if Contains(files[0], t) {
        assert Select(files, t) == [files[0]] + rest;
        assert Select(files, t)[1..] == rest;
        if Sorted(files) {
          SortedTail(files);
          forall y | y in rest ensures LessEq(files[0], y) {
            HeadIsLeast(files, y);
          }
          SortedCons(files[0], rest);
        }
      } else {
        assert Select(files, t) == rest;
        if Sorted(files) { SortedTail(files); }
      }
    }
  }

  /** The filter keeps every copy of a name that contains `t` and no copy
      of any other name. */
  lemma {:induction false} SelectCounts(files: seq<string>, t: string)
    ensures forall y :: multiset(Select(files, t))[y] == if Contains(y, t) then multiset(files)[y] else 0
  {
    if files != [] {
      SelectCounts(files[1..], t);
      assert files == [files[0]] + files[1..];
      assert multiset(files) == multiset{files[0]} + multiset(files[1..]);
    }
  }

  /** The selection succeeds exactly when some name matched and every name
      yields a timestamp; no match is reported as `NoDataFound` and
      nothing else is. */
  lemma LatestDataNamesFails(matched: seq<string>, prefix: string)
    ensures LatestDataNames(matched, prefix) == Err(NoDataFound) <==> matched == []
    ensures LatestDataNames(matched, prefix).Ok? <==>
      matched != [] && forall f :: f in matched ==> Timestamp(f, prefix).Ok?
    ensures LatestDataNames(matched, prefix).Err? && matched != [] ==>
      exists f :: f in matched && Timestamp(f, prefix) == Err(LatestDataNames(matched, prefix).error)
  {
    var files := SortStrings(matched);
    SortStringsSameNames(matched);
    var tss := Timestamps(files, prefix);
    if tss.Ok? {
      LatestIsGreatest(tss.value);
      forall f | f in matched ensures Timestamp(f, prefix).Ok? {
        var i :| 0 <= i < |files| && files[i] == f;
      }
    } else {
      var i :| 0 <= i < |files| && Timestamp(files[i], prefix) == Err(tss.error);
      assert files[i] in matched;
      TimestampFails(files[i], prefix);
    }
  }

  /** The timestamp a successful selection settles on is the greatest
      timestamp of the matched names, and some name carries it. */
  lemma SelectedTimestampIsGreatest(matched: seq<string>, prefix: string)
    requires LatestDataNames(matched, prefix).Ok?
    ensures LatestTimestamp(SortStrings(matched), prefix).Ok?
    ensures var t := LatestTimestamp(SortStrings(matched), prefix).value;
      && (forall f :: f in matched ==> Timestamp(f, prefix).Ok? && LessEq(Timestamp(f, prefix).value, t))
      && (exists f :: f in matched && Timestamp(f, prefix) == Ok(t))
  {
    var files := SortStrings(matched);
    SortStringsSameNames(matched);
    var ts := Timestamps(files, prefix).value;
    var t := Latest(ts).value;
    LatestIsGreatest(ts);
    forall f | f in matched ensures Timestamp(f, prefix).Ok? && LessEq(Timestamp(f, prefix).value, t) {
      var i :| 0 <= i < |files| && files[i] == f;
      assert ts[i] in ts;
    }
    var i :| 0 <= i < |ts| && ts[i] == t;
    assert files[i] in matched && Timestamp(files[i], prefix) == Ok(t);
  }

  /** What a successful selection returns: a non-empty, ascending
      subsequence of the sorted names, holding every matched name that
      contains the selected timestamp and no other name. */
  lemma LatestDataNamesSelects(matched: seq<string>, prefix: string)
    requires LatestDataNames(matched, prefix).Ok?
    ensures LatestTimestamp(SortStrings(matched), prefix).Ok?
    ensures var r := LatestDataNames(matched, prefix).value;
      && var t := LatestTimestamp(SortStrings(matched), prefix).value;
      && (forall f :: f in r <==> f in matched && Contains(f, t))
      && Sorted(r) && SubsequenceOf(r, SortStrings(matched)) && r != []
  {
    var files := SortStrings(matched);
    SortStringsSameNames(matched);
    SortStringsSorted(matched);
    SelectedTimestampIsGreatest(matched, prefix);
    var t := LatestTimestamp(files, prefix).value;
    var f :| f in matched && Timestamp(f, prefix) == Ok(t);
    TimestampInName(f, prefix);
    SelectSpec(files, t);
    assert f in Select(files, t);
  }
}
