/**
 The map/reduce fixtures of pywren_ibm_cloud/tests.py and the arithmetic
 behind their expected results: the pair-sum map and the sum reducer, the
 expected word total written by `initTests`, and `checkResult`. The remote
 executor is not modelled; a test's outcome is stated for every ordering
 of the stored objects and every grouping of map outputs into reducers.
 */
module PywrenTests {
  import opened Wrappers
  import opened Seqs
  import opened Text
  import opened WordCount

  // ---------------------------------------------------------------------------
  // Pair-sum map and sum reducer
  // ---------------------------------------------------------------------------

  /** `simple_map_function(x, y)`. */
  function SimpleMap(x: int, y: int): int
  {
    x + y
  }

  /** The map applied to each pair of arguments, in order. */
  function MapPairs(ps: seq<(int, int)>): (r: seq<int>)
    ensures |r| == |ps|
    ensures forall i :: 0 <= i < |ps| ==> r[i] == SimpleMap(ps[i].0, ps[i].1)
  {
    seq(|ps|, i requires 0 <= i < |ps| => SimpleMap(ps[i].0, ps[i].1))
  }

  /** Mapping two argument lists one after the other gives the two result lists concatenated. */
  lemma MapPairsAppend(a: seq<(int, int)>, b: seq<(int, int)>)
    ensures MapPairs(a + b) == MapPairs(a) + MapPairs(b)
  {
  }

  function First(p: (int, int)): int { p.0 }

  function Second(p: (int, int)): int { p.1 }

  /** The mapped results add up to the sum of all first and all second arguments. */
  lemma {:induction false} SumOfMapPairs(ps: seq<(int, int)>)
    ensures Sum(MapPairs(ps)) == SumBy(ps, First) + SumBy(ps, Second)
    decreases |ps|
  {
    if ps != [] {
      SumOfMapPairs(ps[1..]);
      assert MapPairs(ps)[1..] == MapPairs(ps[1..]);
    }
  }

  /** `simple_reduce_function(results)`: a running total over the list, 0 when it is empty. */
  method SimpleReduce(results: seq<int>) returns (total: int)
    ensures total == Sum(results)
    ensures results == [] ==> total == 0
  {
    total := 0;
    var i := 0;
    while i < |results|
      invariant 0 <= i <= |results|
      invariant total == Sum(results[..i])
    {
      assert results[..i + 1] == results[..i] + [results[i]];
      SumBySnoc(results[..i], results[i], Id);
      total := total + results[i];
      i := i + 1;
    }
    assert results[..|results|] == results;
  }

  /** The argument list of `test_map` and `test_map_reduce`. */
  const PairData: seq<(int, int)> := [(1, 1), (2, 2), (3, 3), (4, 4)]

  /** `test_map` expects `[2, 4, 6, 8]` and `test_map_reduce` expects 20. */
  lemma MapScenario()
    ensures MapPairs(PairData) == [2, 4, 6, 8]
    ensures Sum(MapPairs(PairData)) == 20
  {
    assert MapPairs(PairData) == [2, 4, 6, 8];
    SumOfMapPairs(PairData);
  }

  /** `test_multiple_executions`: mapping `[[1,1],[2,2]]` then `[[3,3],[4,4]]` gives the results in order. */
  lemma MultipleExecutionsScenario()
    ensures MapPairs([(1, 1), (2, 2)]) + MapPairs([(3, 3), (4, 4)]) == [2, 4, 6, 8]
  {
    MapPairsAppend([(1, 1), (2, 2)], [(3, 3), (4, 4)]);
    assert [(1, 1), (2, 2)] + [(3, 3), (4, 4)] == PairData;
    MapScenario();
  }

  // ---------------------------------------------------------------------------
  // The expected word total and checkResult
  // ---------------------------------------------------------------------------

  /** `len(content.split())`. */
  function NumWords(content: string): int
  {
    |Words(content, IsSpace)|
  }

  /**
   `initTests`: the sum of `len(content.split())` over the uploaded files,
   plus one for the single word of the result object itself, which is
   stored under the same prefix. It is one more than the number of words
   in all the files together.
   */
  function ExpectedTotal(contents: seq<string>): (n: nat)
    ensures n == 1 + |Flatten(WordsEach(contents, IsSpace))|
  {
    WordCountOfEach(contents);
    1 + SumBy(contents, NumWords)
  }

  /** `str(result_to_compare)`: the text of the result object. */
  function StoredResult(contents: seq<string>): (s: string)
    ensures ParseDecimal(s) == Some(ExpectedTotal(contents))
    ensures Words(s, IsSpace) == [s]
    ensures Words(s, IsStrSpace) == [s]
  {
    ParseDecimalOfDecimal(ExpectedTotal(contents));
    DecimalIsOneWord(ExpectedTotal(contents));
    Decimal(ExpectedTotal(contents))
  }

  /** The expected total is the number of words of all objects under the prefix, the result object included. */
  lemma ExpectedTotalCountsAllObjects(contents: seq<string>)
    ensures ExpectedTotal(contents) == SumBy(contents + [StoredResult(contents)], NumWords)
  {
    SumBySnoc(contents, StoredResult(contents), NumWords);
  }

  /** The expected total is also the number of words in all files read as one text. */
  lemma ExpectedTotalOfJoinedText(contents: seq<string>)
    ensures ExpectedTotal(contents) == 1 + |Words(JoinWith(contents, '\n'), IsSpace)|
  {
    WordsOfJoin(contents, '\n', IsSpace);
  }

  /** The words of all strings, one list per string, number as many as the strings' word counts add up to. */
  lemma {:induction false} WordCountOfEach(contents: seq<string>)
    ensures |Flatten(WordsEach(contents, IsSpace))| == SumBy(contents, NumWords)
    decreases |contents|
  {
    if contents != [] {
      WordCountOfEach(contents[1..]);
    }
  }

  /** What a job returns: one value, or a list of values (one per reducer or per call). */
  datatype JobResult = Scalar(value: int) | Items(values: seq<int>)

  /** The outcome of `checkResult`; `Unparsable` is where `int(...)` raises. */
  datatype Verdict = Passed | Mismatch | Unparsable

  /** `checkResult`'s total: the sum of a list result, a scalar result as it is. */
  function Aggregate(result: JobResult): int
  {
    match result
    case Scalar(v) => v
    case Items(vs) => Sum(vs)
  }

  /**
   `checkResult(result)`: passes exactly when the stored text parses as a
   number equal to the aggregated result, and fails to parse exactly when
   it is not a decimal numeral.
   */
  function CheckResult(result: JobResult, stored: string): (v: Verdict)
    ensures v == Unparsable <==> ParseDecimal(stored).None?
    ensures v == Passed <==> ParseDecimal(stored).Some? && ParseDecimal(stored).value == Aggregate(result)
  {
    match ParseDecimal(stored)
    case None => Unparsable
    case Some(n) => if Aggregate(result) == n then Passed else Mismatch
  }

  // ---------------------------------------------------------------------------
  // The word-count tests
  // ---------------------------------------------------------------------------

  /**
   The counters the word-count map produces, one per object (`CountWords`
   on each), splitting with `sep`. The map functions as written split each
   decoded line with `str.split()` (`IsStrSpace`); the expected total counts
   with `bytes.split()` (`IsSpace`).
   */
  function MapCounters(objects: seq<string>, sep: char -> bool): (cs: seq<Counter>)
    ensures |cs| == |objects|
    ensures forall i :: 0 <= i < |objects| ==> cs[i] == Tally(Words(objects[i], sep))
  {
    seq(|objects|, i requires 0 <= i < |objects| => Tally(Words(objects[i], sep)))
  }

  /** Reducing the counters of some objects gives the number of words in them. */
  lemma {:induction false} ReduceOfCounters(objects: seq<string>)
    ensures ReduceTotal(MapCounters(objects, IsSpace)) == SumBy(objects, NumWords)
    decreases |objects|
  {
    if objects != [] {
      ReduceOfCounters(objects[1..]);
      assert MapCounters(objects, IsSpace)[1..] == MapCounters(objects[1..], IsSpace);
      TallySpec(Words(objects[0], IsSpace));
    }
  }

  /**
   `test_map_reduce_cos_bucket` (and the key, storage-handler and
   cloud-object variants): the objects under the prefix are the uploaded
   files and the result object, listed in any order; one reducer sums all
   counters, and the check passes.
   */
  lemma BucketTestPasses(contents: seq<string>, objects: seq<string>)
    requires multiset(objects) == multiset(contents + [StoredResult(contents)])
    ensures CheckResult(Scalar(ReduceTotal(MapCounters(objects, IsSpace))), StoredResult(contents)) == Passed
  {
    ReduceOfCounters(objects);
    SumByPermutation(objects, contents + [StoredResult(contents)], NumWords);
    ExpectedTotalCountsAllObjects(contents);
  }

  /**
   The one-reducer-per-object variants: the counters are distributed over
   several reducers in any way, the job returns the list of their totals,
   and the check still passes.
   */
  lemma OneReducerPerObjectPasses(contents: seq<string>, objects: seq<string>, groups: seq<seq<Counter>>)
    requires multiset(objects) == multiset(contents + [StoredResult(contents)])
    requires multiset(Flatten(groups)) == multiset(MapCounters(objects, IsSpace))
    ensures CheckResult(Items(GroupTotals(groups)), StoredResult(contents)) == Passed
  {
    GroupingInvariance(groups, MapCounters(objects, IsSpace));
    BucketTestPasses(contents, objects);
  }

  /**
   `test_map_reduce_url`: the map reads the files from their URLs and so
   never sees the result object; the test adds its one word back, and the
   check passes.
   */
  lemma UrlTestPasses(contents: seq<string>)
    ensures CheckResult(Scalar(ReduceTotal(MapCounters(contents, IsSpace)) + 1), StoredResult(contents)) == Passed
  {
    ReduceOfCounters(contents);
  }

  /** Without the added one the URL test's total falls one short and the check fails. */
  lemma UrlTestNeedsTheExtraWord(contents: seq<string>)
    ensures CheckResult(Scalar(ReduceTotal(MapCounters(contents, IsSpace))), StoredResult(contents)) == Mismatch
  {
    ReduceOfCounters(contents);
  }

  // ---------------------------------------------------------------------------
  // The map functions as written: words of the decoded lines
  // ---------------------------------------------------------------------------

  /** On objects whose only whitespace is ASCII, the map as written gives the same counters. */
  lemma MapCountersAgree(objects: seq<string>)
    requires forall i :: 0 <= i < |objects| ==> AsciiSpaced(objects[i])
    ensures MapCounters(objects, IsStrSpace) == MapCounters(objects, IsSpace)
  {
    forall i | 0 <= i < |objects| ensures MapCounters(objects, IsStrSpace)[i] == MapCounters(objects, IsSpace)[i] {
      WordsAgree(objects[i]);
    }
  }

  /** The result object is digits only, so it has no whitespace of either kind. */
  lemma StoredResultAsciiSpaced(contents: seq<string>)
    ensures AsciiSpaced(StoredResult(contents))
  {
  }

  /** Every object under the prefix is one of the files or the result object. */
  lemma ObjectsAsciiSpaced(contents: seq<string>, objects: seq<string>)
    requires multiset(objects) == multiset(contents + [StoredResult(contents)])
    requires forall i :: 0 <= i < |contents| ==> AsciiSpaced(contents[i])
    ensures forall i :: 0 <= i < |objects| ==> AsciiSpaced(objects[i])
  {
    StoredResultAsciiSpaced(contents);
    forall i | 0 <= i < |objects| ensures AsciiSpaced(objects[i]) {
      assert objects[i] in multiset(objects);
      assert objects[i] in contents + [StoredResult(contents)];
    }
  }

  /**
   `test_map_reduce_cos_bucket` as written passes when the files'
   only whitespace is the six ASCII characters.
   */
  lemma BucketTestPassesAsWritten(contents: seq<string>, objects: seq<string>)
    requires multiset(objects) == multiset(contents + [StoredResult(contents)])
    requires forall i :: 0 <= i < |contents| ==> AsciiSpaced(contents[i])
    ensures CheckResult(Scalar(ReduceTotal(MapCounters(objects, IsStrSpace))), StoredResult(contents)) == Passed
  {
    ObjectsAsciiSpaced(contents, objects);
    MapCountersAgree(objects);
    BucketTestPasses(contents, objects);
  }

  /** The one-reducer-per-object variants as written pass under the same condition. */
  lemma OneReducerPerObjectPassesAsWritten(contents: seq<string>, objects: seq<string>, groups: seq<seq<Counter>>)
    requires multiset(objects) == multiset(contents + [StoredResult(contents)])
    requires forall i :: 0 <= i < |contents| ==> AsciiSpaced(contents[i])
    requires multiset(Flatten(groups)) == multiset(MapCounters(objects, IsStrSpace))
    ensures CheckResult(Items(GroupTotals(groups)), StoredResult(contents)) == Passed
  {
    ObjectsAsciiSpaced(contents, objects);
    MapCountersAgree(objects);
    OneReducerPerObjectPasses(contents, objects, groups);
  }

  /** `test_map_reduce_url` as written passes under the same condition. */
  lemma UrlTestPassesAsWritten(contents: seq<string>)
    requires forall i :: 0 <= i < |contents| ==> AsciiSpaced(contents[i])
    ensures CheckResult(Scalar(ReduceTotal(MapCounters(contents, IsStrSpace)) + 1), StoredResult(contents)) == Passed
  {
    MapCountersAgree(contents);
    UrlTestPasses(contents);
  }

  /** A file holding `a`, an information separator and `b`. */
  const SeparatorFile: string := "a\U{001C}b"

  /** For that file alone the expected total is 2: one word in the file, one in the result object. */
  lemma SeparatorFileExpectedTotal()
    ensures ExpectedTotal([SeparatorFile]) == 2
  {
    SeparatorSplitsOnlyStrWords();
    assert WordsEach([SeparatorFile], IsSpace) == [Words(SeparatorFile, IsSpace)] + WordsEach([], IsSpace);
    assert Flatten(WordsEach([SeparatorFile], IsSpace)) == Words(SeparatorFile, IsSpace) + Flatten(WordsEach([], IsSpace));
  }

  /** The map reduces two objects to the sum of their word counts. */
  lemma TwoObjectsCounted(f: string, g: string, sep: char -> bool)
    ensures ReduceTotal(MapCounters([f, g], sep)) == |Words(f, sep)| + |Words(g, sep)|
  {
    TallyPositiveTotal(Words(f, sep));
    TallyPositiveTotal(Words(g, sep));
    var cs := MapCounters([f, g], sep);
    assert cs[1..][1..] == [];
    assert SumBy(cs[1..], Total) == Total(cs[1]) + SumBy(cs[1..][1..], Total);
  }

  /**
   That file makes the bucket test as written fail: the expected total is
   2, while the map splits the file into two words and reduces to 3.
   Counting both sides with the same whitespace, `MapCounters` with
   `IsSpace`, passes on the same objects.
   */
  lemma SeparatorBreaksBucketTest()
    ensures var objects := [SeparatorFile, StoredResult([SeparatorFile])];
            && CheckResult(Scalar(ReduceTotal(MapCounters(objects, IsStrSpace))), StoredResult([SeparatorFile])) == Mismatch
            && CheckResult(Scalar(ReduceTotal(MapCounters(objects, IsSpace))), StoredResult([SeparatorFile])) == Passed
  {
    var stored := StoredResult([SeparatorFile]);
    SeparatorFileExpectedTotal();
    StoredResultAsciiSpaced([SeparatorFile]);
    SeparatorSplitsOnlyStrWords();
    WordsAgree(stored);
    TwoObjectsCounted(SeparatorFile, stored, IsStrSpace);
    assert [SeparatorFile] + [stored] == [SeparatorFile, stored];
    BucketTestPasses([SeparatorFile], [SeparatorFile, stored]);
  }
}
