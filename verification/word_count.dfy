/**
 The word-count fixtures of pywren_ibm_cloud/tests.py: the map functions
 (`my_map_function_bucket`, `_key`, `_url` and `_storage_handler` share one
 counting loop) and the reducer `my_reduce_function`. A Python dict keeps
 insertion order, so a counter is a sequence of word/count entries in the
 order the words were first met.
 */
module WordCount {
  import opened Seqs
  import opened Text

  datatype Entry = Entry(word: string, count: nat)

  /** A word counter (`{word: count}`), entries in insertion order. */
  type Counter = seq<Entry>

  /** The counter's keys in iteration order. */
  function Keys(c: Counter): (ks: seq<string>)
    ensures |ks| == |c|
    ensures forall i :: 0 <= i < |c| ==> ks[i] == c[i].word
  {
    seq(|c|, i requires 0 <= i < |c| => c[i].word)
  }

  /** `counter.get(w, 0)`. */
  function Lookup(c: Counter, w: string): nat
    decreases |c|
  {
    if c == [] then 0 else if c[0].word == w then c[0].count else Lookup(c[1..], w)
  }

  /** Every count is at least one. */
  predicate Positive(c: Counter)
  {
    forall i :: 0 <= i < |c| ==> c[i].count >= 1
  }

  function EntryCount(e: Entry): int
  {
    e.count
  }

  /** The sum of a counter's values (`sum(counter.values())`). */
  function Total(c: Counter): int
  {
    SumBy(c, EntryCount)
  }

  /**
   One step of the counting loop: `counter[word] = 1` for a new word,
   `counter[word] += 1` otherwise. The total goes up by one and positive
   counts stay positive.
   */
  function Increment(c: Counter, w: string): (r: Counter)
    ensures Total(r) == Total(c) + 1
    ensures Positive(c) ==> Positive(r)
    decreases |c|
  {
    if c == [] then
      assert [Entry(w, 1)][1..] == [];
      [Entry(w, 1)]
    else if c[0].word == w then
      assert ([Entry(w, c[0].count + 1)] + c[1..])[1..] == c[1..];
      [Entry(w, c[0].count + 1)] + c[1..]
    else
      assert ([c[0]] + Increment(c[1..], w))[1..] == Increment(c[1..], w);
      [c[0]] + Increment(c[1..], w)
  }

  /** Exactly the count of `w` goes up by one; every other word keeps its count. */
  lemma {:induction false} IncrementLookup(c: Counter, w: string, v: string)
    ensures Lookup(Increment(c, w), v) == Lookup(c, v) + (if v == w then 1 else 0)
    decreases |c|
  {
    if c != [] && c[0].word != w {
      IncrementLookup(c[1..], w, v);
    }
  }

  /** A new word is appended as a key; a known word leaves the keys and their order as they are. */
  lemma {:induction false} IncrementKeys(c: Counter, w: string)
    ensures Keys(Increment(c, w)) == AppendIfAbsent(Keys(c), w)
    decreases |c|
  {
    if c != [] {
      KeysCons(c[0], c[1..]);
      assert [c[0]] + c[1..] == c;
      if c[0].word == w {
        KeysCons(Entry(w, c[0].count + 1), c[1..]);
        assert Keys(c)[0] == w;
      } else {
        IncrementKeys(c[1..], w);
        KeysCons(c[0], Increment(c[1..], w));
        AppendIfAbsentCons(c[0].word, Keys(c[1..]), w);
      }
    }
  }

  lemma KeysCons(e: Entry, c: Counter)
    ensures Keys([e] + c) == [e.word] + Keys(c)
  {
  }

  /** The counter the loop has built after seeing the words `ws`, in order. */
  function Tally(ws: seq<string>): Counter
    decreases |ws|
  {
    if ws == [] then [] else Increment(Tally(ws[..|ws| - 1]), ws[|ws| - 1])
  }

  /**
   The counter built from `ws` has the distinct words of `ws` as its keys,
   in order of first occurrence (each key first occurs in `ws` before the
   next one does); each word's count is its number of
   occurrences in `ws`; every count is positive; and the counts add up to
   the number of words.
   */
  lemma TallySpec(ws: seq<string>)
    ensures Keys(Tally(ws)) == Dedup(ws)
    ensures forall i, j :: 0 <= i < j < |Tally(ws)| ==> FirstIndex(ws, Tally(ws)[i].word) < FirstIndex(ws, Tally(ws)[j].word)
    ensures forall v :: Lookup(Tally(ws), v) == multiset(ws)[v]
    ensures Positive(Tally(ws))
    ensures Total(Tally(ws)) == |ws|
  {
    TallyKeys(ws);
    DedupFirstOccurrenceOrder(ws);
    TallyPositiveTotal(ws);
    forall v {
      TallyLookup(ws, v);
    }
  }

  /** The keys are the distinct words, in order of first occurrence. */
  lemma {:induction false} TallyKeys(ws: seq<string>)
    ensures Keys(Tally(ws)) == Dedup(ws)
    decreases |ws|
  {
    if ws != [] {
      TallyKeys(ws[..|ws| - 1]);
      IncrementKeys(Tally(ws[..|ws| - 1]), ws[|ws| - 1]);
    }
  }

  /** Every count is positive and the counts add up to the number of words. */
  lemma {:induction false} TallyPositiveTotal(ws: seq<string>)
    ensures Positive(Tally(ws))
    ensures Total(Tally(ws)) == |ws|
    decreases |ws|
  {
    if ws != [] {
      TallyPositiveTotal(ws[..|ws| - 1]);
    }
  }

  /** Each word's count is its number of occurrences. */
  lemma {:induction false} TallyLookup(ws: seq<string>, v: string)
    ensures Lookup(Tally(ws), v) == multiset(ws)[v]
    decreases |ws|
  {
    if ws != [] {
      var init := ws[..|ws| - 1];
      var w := ws[|ws| - 1];
      TallyLookup(init, v);
      IncrementLookup(Tally(init), w, v);
      assert ws == init + [w];
      assert multiset(ws) == multiset(init) + multiset{w};
    }
  }

  /** A word has a positive count exactly when it occurs. */
  lemma TallyCountsOccurring(ws: seq<string>, v: string)
    ensures Lookup(Tally(ws), v) >= 1 <==> v in ws
  {
    TallyLookup(ws, v);
  }

  /**
   The counting loop of the map functions: for each line, for each word of
   the line (with `sep` as the whitespace), count it. The result is the tally of the
   words of the whole text in reading order, so it has the properties
   `TallySpec` states. The map functions as written split with `IsStrSpace`.
   */
  method CountWords(data: string, sep: char -> bool) returns (counter: Counter)
    requires sep('\n')
    ensures counter == Tally(Words(data, sep))
    ensures Keys(counter) == Dedup(Words(data, sep))
    ensures forall v :: Lookup(counter, v) == multiset(Words(data, sep))[v]
    ensures Positive(counter)
    ensures Total(counter) == |Words(data, sep)|
  {
    var lines := SplitOn(data, '\n');
    counter := CountLines(lines, sep);
    LineWordsAreWords(data, sep);
    TallySpec(Words(data, sep));
  }

  /** The outer loop: counting line after line tallies the lines' words in order. */
  method CountLines(lines: seq<string>, sep: char -> bool) returns (counter: Counter)
    ensures counter == Tally(Flatten(WordsEach(lines, sep)))
  {
    counter := [];
    ghost var seen: seq<string> := [];
    var i := 0;
    while i < |lines|
      invariant 0 <= i <= |lines|
      invariant seen == Flatten(WordsEach(lines[..i], sep))
      invariant counter == Tally(seen)
    {
      var words := Words(lines[i], sep);
      counter := CountLine(counter, seen, words);
      assert lines[..i + 1] == lines[..i] + [lines[i]];
      WordsEachSnoc(lines[..i], lines[i], sep);
      FlattenSnoc(WordsEach(lines[..i], sep), words);
      seen := seen + words;
      i := i + 1;
    }
    assert lines[..|lines|] == lines;
  }

  /** The inner loop: counting the words of one line continues the tally. */
  method CountLine(counter: Counter, ghost seen: seq<string>, words: seq<string>) returns (r: Counter)
    requires counter == Tally(seen)
    ensures r == Tally(seen + words)
  {
    r := counter;
    var j := 0;
    assert seen + words[..0] == seen;
    while j < |words|
      invariant 0 <= j <= |words|
      invariant r == Tally(seen + words[..j])
    {
      assert words[..j + 1] == words[..j] + [words[j]];
      AppendAssoc(seen, words[..j], [words[j]]);
      r := Increment(r, words[j]);
      j := j + 1;
    }
    assert words[..|words|] == words;
  }

  /** `my_reduce_function(results)`: the sum, over all counters, of the sum of their values. */
  function ReduceTotal(cs: seq<Counter>): int
  {
    SumBy(cs, Total)
  }

  /**
   `my_reduce_function` as written: a running total over every counter and
   every word in it. It is the total of all counts, 0 for no counters.
   */
  method MyReduce(results: seq<Counter>) returns (finalResult: int)
    ensures finalResult == ReduceTotal(results)
    ensures results == [] ==> finalResult == 0
  {
    finalResult := 0;
    var i := 0;
    while i < |results|
      invariant 0 <= i <= |results|
      invariant finalResult == ReduceTotal(results[..i])
    {
      var count := results[i];
      var j := 0;
      ghost var before := finalResult;
      while j < |count|
        invariant 0 <= j <= |count|
        invariant finalResult == before + Total(count[..j])
      {
        assert count[..j + 1] == count[..j] + [count[j]];
        SumBySnoc(count[..j], count[j], EntryCount);
        finalResult := finalResult + count[j].count;
        j := j + 1;
      }
      assert count[..|count|] == count;
      assert results[..i + 1] == results[..i] + [count];
      SumBySnoc(results[..i], count, Total);
      i := i + 1;
    }
    assert results[..|results|] == results;
  }

  /** The reducer is additive over concatenation of its input list. */
  lemma ReduceAppend(a: seq<Counter>, b: seq<Counter>)
    ensures ReduceTotal(a + b) == ReduceTotal(a) + ReduceTotal(b)
  {
    SumByAppend(a, b, Total);
  }

  /** The reducer's output for each group of counters. */
  function GroupTotals(groups: seq<seq<Counter>>): (ts: seq<int>)
    ensures |ts| == |groups|
    ensures forall i :: 0 <= i < |groups| ==> ts[i] == ReduceTotal(groups[i])
  {
    seq(|groups|, i requires 0 <= i < |groups| => ReduceTotal(groups[i]))
  }

  /** Summing the per-group reductions equals reducing all groups' counters together. */
  lemma {:induction false} SumOfGroupTotals(groups: seq<seq<Counter>>)
    ensures Sum(GroupTotals(groups)) == ReduceTotal(Flatten(groups))
    decreases |groups|
  {
    if groups != [] {
      SumOfGroupTotals(groups[1..]);
      assert GroupTotals(groups)[1..] == GroupTotals(groups[1..]);
      ReduceAppend(groups[0], Flatten(groups[1..]));
    }
  }

  /**
   Grouping invariance: however the counters are distributed over reducers
   (any grouping of any reordering), the reducers' outputs sum to the single
   reducer's output on all counters.
   */
  lemma GroupingInvariance(groups: seq<seq<Counter>>, cs: seq<Counter>)
    requires multiset(Flatten(groups)) == multiset(cs)
    ensures Sum(GroupTotals(groups)) == ReduceTotal(cs)
  {
    SumOfGroupTotals(groups);
    SumByPermutation(Flatten(groups), cs, Total);
  }
}
