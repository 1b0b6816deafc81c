/**
 String operations the model needs from Python's `str`/`bytes`: splitting on
 a separator character and joining with it (`s.split('\n')`,
 `'\n'.join(lines)`), whitespace splitting (`s.split()`), and decimal
 rendering and parsing of naturals (`str(n)`, `int(s)`).
 */
module Text {
  import opened Wrappers
  import opened Seqs

  // ---------------------------------------------------------------------------
  // Splitting and joining on one separator character
  // ---------------------------------------------------------------------------

  /** `s.split(c)`: the pieces between occurrences of `c`; there is always at least one. */
  function SplitOn(s: string, c: char): (r: seq<string>)
    ensures |r| >= 1
    ensures forall i :: 0 <= i < |r| ==> c !in r[i]
    decreases |s|
  {
    if s == [] then [[]]
    else
      var rest := SplitOn(s[1..], c);
      if s[0] == c then [[]] + rest
      else [[s[0]] + rest[0]] + rest[1..]
  }

  /** `c.join(ls)`: the pieces with one `c` between neighbours and none at the ends. */
  function JoinWith(ls: seq<string>, c: char): string
    decreases |ls|
  {
    if ls == [] then []
    else if |ls| == 1 then ls[0]
    else ls[0] + [c] + JoinWith(ls[1..], c)
  }

  /** A piece free of the separator splits to itself. */
  lemma {:induction false} SplitOnFree(x: string, c: char)
    requires c !in x
    ensures SplitOn(x, c) == [x]
    decreases |x|
  {
    if x != [] {
      SplitOnFree(x[1..], c);
      assert [x[0]] + x[1..] == x;
    }
  }

  /** Splitting `x + c + t` yields `x` followed by the pieces of `t`. */
  lemma {:induction false} SplitOnCons(x: string, c: char, t: string)
    requires c !in x
    ensures SplitOn(x + [c] + t, c) == [x] + SplitOn(t, c)
    decreases |x|
  {
    var s := x + [c] + t;
    if x == [] {
      assert s[1..] == t;
    } else {
      assert s[1..] == x[1..] + [c] + t;
      SplitOnCons(x[1..], c, t);
      assert [x[0]] + x[1..] == x;
    }
  }

  /** Splitting undoes joining, for pieces that do not contain the separator. */
  lemma {:induction false} SplitJoin(ls: seq<string>, c: char)
    requires |ls| >= 1
    requires forall i :: 0 <= i < |ls| ==> c !in ls[i]
    ensures SplitOn(JoinWith(ls, c), c) == ls
    decreases |ls|
  {
    if |ls| == 1 {
      SplitOnFree(ls[0], c);
    } else {
      SplitOnCons(ls[0], c, JoinWith(ls[1..], c));
      SplitJoin(ls[1..], c);
      assert [ls[0]] + ls[1..] == ls;
    }
  }

  /** Joining undoes splitting: no character of the input is lost or added. */
  lemma {:induction false} JoinSplit(s: string, c: char)
    ensures JoinWith(SplitOn(s, c), c) == s
    decreases |s|
  {
    if s != [] {
      var rest := SplitOn(s[1..], c);
      JoinSplit(s[1..], c);
      if s[0] == c {
        assert JoinWith([[]] + rest, c) == [] + [c] + JoinWith(rest, c);
        assert s == [c] + s[1..];
      } else {
        var r := [[s[0]] + rest[0]] + rest[1..];
        if |rest| == 1 {
          assert JoinWith(rest, c) == rest[0];
          assert s == [s[0]] + s[1..];
        } else {
          assert JoinWith(rest, c) == rest[0] + [c] + JoinWith(rest[1..], c);
          assert r[1..] == rest[1..];
          assert JoinWith(r, c) == [s[0]] + rest[0] + [c] + JoinWith(rest[1..], c);
          assert s == [s[0]] + s[1..];
        }
      }
    }
  }

  // ---------------------------------------------------------------------------
  // Whitespace splitting
  // ---------------------------------------------------------------------------

  // Whitespace splitting takes the whitespace as a predicate `sep` on
  // characters: `IsSpace` gives `bytes.split()` and `IsStrSpace` gives
  // `str.split()` of decoded text.

  /** The ASCII whitespace that `bytes.split()` separates on. */
  predicate IsSpace(ch: char)
  {
    ch == ' ' || ch == '\t' || ch == '\n' || ch == '\r' || ch == '\U{000B}' || ch == '\U{000C}'
  }

  /**
   The whitespace `str.split()` separates on: the six ASCII characters of
   `IsSpace`, the information separators U+001C to U+001F, and U+0085,
   U+00A0, U+1680, U+2000 to U+200A, U+2028, U+2029, U+202F, U+205F and
   U+3000.
   */
  predicate IsStrSpace(ch: char)
  {
    || IsSpace(ch)
    || ('\U{001C}' <= ch <= '\U{001F}')
    || ch == '\U{0085}' || ch == '\U{00A0}' || ch == '\U{1680}'
    || ('\U{2000}' <= ch <= '\U{200A}')
    || ch == '\U{2028}' || ch == '\U{2029}' || ch == '\U{202F}' || ch == '\U{205F}' || ch == '\U{3000}'
  }

  /** A word for `sep`: non-empty and free of its whitespace. */
  predicate IsWord(w: string, sep: char -> bool)
  {
    w != [] && forall k :: 0 <= k < |w| ==> !sep(w[k])
  }

  /** The characters of `s` that are not whitespace for `sep`, in order. */
  function NonSpace(s: string, sep: char -> bool): string
    decreases |s|
  {
    if s == [] then []
    else (if sep(s[0]) then [] else [s[0]]) + NonSpace(s[1..], sep)
  }

  /** Length of the longest prefix of `s` free of whitespace for `sep`. */
  function WordEnd(s: string, sep: char -> bool): (n: nat)
    ensures n <= |s|
    ensures forall k :: 0 <= k < n ==> !sep(s[k])
    ensures n < |s| ==> sep(s[n])
    decreases |s|
  {
    if s == [] || sep(s[0]) then 0 else 1 + WordEnd(s[1..], sep)
  }

  /** A whitespace-free string is its own non-whitespace content. */
  lemma {:induction false} NonSpaceOfWord(w: string, sep: char -> bool)
    requires forall k :: 0 <= k < |w| ==> !sep(w[k])
    ensures NonSpace(w, sep) == w
    decreases |w|
  {
    if w != [] {
      NonSpaceOfWord(w[1..], sep);
      assert [w[0]] + w[1..] == w;
    }
  }

  /** Filtering out whitespace distributes over concatenation. */
  lemma {:induction false} NonSpaceAppend(a: string, b: string, sep: char -> bool)
    ensures NonSpace(a + b, sep) == NonSpace(a, sep) + NonSpace(b, sep)
    decreases |a|
  {
    if a != [] {
      assert (a + b)[1..] == a[1..] + b;
      NonSpaceAppend(a[1..], b, sep);
    } else {
      assert a + b == b;
    }
  }

  /**
   `s.split()` with `sep` as the whitespace: the maximal runs of characters
   that are not whitespace, in order. Every piece is a word, and together
   they are exactly the non-whitespace characters of `s`.
   */
  function Words(s: string, sep: char -> bool): (ws: seq<string>)
    ensures forall i :: 0 <= i < |ws| ==> IsWord(ws[i], sep)
    ensures Flatten(ws) == NonSpace(s, sep)
    decreases |s|
  {
    if s == [] then []
    else if sep(s[0]) then Words(s[1..], sep)
    else
      var n := WordEnd(s, sep);
      assert s == s[..n] + s[n..];
      NonSpaceAppend(s[..n], s[n..], sep);
      NonSpaceOfWord(s[..n], sep);
      [s[..n]] + Words(s[n..], sep)
  }

  /** A single word splits to itself. */
  lemma WordsOfWord(w: string, sep: char -> bool)
    requires IsWord(w, sep)
    ensures Words(w, sep) == [w]
  {
    assert WordEnd(w, sep) == |w|;
    assert w[..|w|] == w;
    assert w[|w|..] == [];
    assert Words(w, sep) == [w[..|w|]] + Words(w[|w|..], sep);
  }

  /** Text broken at a whitespace character splits into the words of each side. */
  lemma {:induction false} WordsAppendSpace(a: string, c: char, b: string, sep: char -> bool)
    requires sep(c)
    ensures Words(a + [c] + b, sep) == Words(a, sep) + Words(b, sep)
    decreases |a|, 1
  {
    var s := a + [c] + b;
    if a == [] {
      assert s[1..] == b;
    } else if sep(a[0]) {
      assert s[1..] == a[1..] + [c] + b;
      WordsAppendSpace(a[1..], c, b, sep);
    } else {
      WordsAppendSpaceAfterWord(a, c, b, sep);
    }
  }

  /** The case of `WordsAppendSpace` where `a` starts with a word: that word is also the first of the whole. */
  lemma {:induction false} WordsAppendSpaceAfterWord(a: string, c: char, b: string, sep: char -> bool)
    requires sep(c)
    requires a != [] && !sep(a[0])
    ensures Words(a + [c] + b, sep) == Words(a, sep) + Words(b, sep)
    decreases |a|, 0
  {
    var n := WordEnd(a, sep);
    WordsAfterFirstWord(a, [c] + b, sep);
    AppendAssoc(a, [c], b);
    AppendAssoc(a[n..], [c], b);
    WordsFirst(a, sep);
    WordsAppendSpace(a[n..], c, b, sep);
    AppendAssoc([a[..n]], Words(a[n..], sep), Words(b, sep));
  }

  /** When whitespace follows `a`, the first word of `a` is the first word of the whole. */
  lemma WordsAfterFirstWord(a: string, t: string, sep: char -> bool)
    requires a != [] && !sep(a[0])
    requires t != [] && sep(t[0])
    ensures Words(a + t, sep) == [a[..WordEnd(a, sep)]] + Words(a[WordEnd(a, sep)..] + t, sep)
  {
    var s := a + t;
    var n := WordEnd(a, sep);
    WordEndBeforeSpace(a, t, sep);
    assert s[0] == a[0];
    WordsFirst(s, sep);
    SliceOfAppend(a, t, n);
  }

  /** Text that starts with a word splits into that word and the words of the rest. */
  lemma WordsFirst(s: string, sep: char -> bool)
    requires s != [] && !sep(s[0])
    ensures Words(s, sep) == [s[..WordEnd(s, sep)]] + Words(s[WordEnd(s, sep)..], sep)
  {
  }

  /** A word end found in `a` stays where it is when whitespace follows `a`. */
  lemma {:induction false} WordEndBeforeSpace(a: string, t: string, sep: char -> bool)
    requires t != [] && sep(t[0])
    ensures WordEnd(a + t, sep) == WordEnd(a, sep)
    decreases |a|
  {
    if a == [] {
      assert a + t == t;
    } else if !sep(a[0]) {
      assert (a + t)[1..] == a[1..] + t;
      WordEndBeforeSpace(a[1..], t, sep);
    }
  }

  /**
   Splitting text into lines on a whitespace separator and then each line
   into words gives the words of the whole text.
   */
  lemma {:induction false} WordsOfJoin(ls: seq<string>, c: char, sep: char -> bool)
    requires sep(c)
    ensures Words(JoinWith(ls, c), sep) == Flatten(WordsEach(ls, sep))
    decreases |ls|
  {
    if |ls| == 1 {
      assert Flatten(WordsEach(ls, sep)) == Words(ls[0], sep) + Flatten(WordsEach([], sep));
    } else if |ls| > 1 {
      WordsAppendSpace(ls[0], c, JoinWith(ls[1..], c), sep);
      WordsOfJoin(ls[1..], c, sep);
    }
  }

  /** The words of each string, one list per string. */
  function WordsEach(ls: seq<string>, sep: char -> bool): (r: seq<seq<string>>)
    ensures |r| == |ls|
    decreases |ls|
  {
    if ls == [] then [] else [Words(ls[0], sep)] + WordsEach(ls[1..], sep)
  }

  /** Adding a string at the end adds its word list at the end. */
  lemma {:induction false} WordsEachSnoc(ls: seq<string>, l: string, sep: char -> bool)
    ensures WordsEach(ls + [l], sep) == WordsEach(ls, sep) + [Words(l, sep)]
    decreases |ls|
  {
    if ls != [] {
      assert (ls + [l])[1..] == ls[1..] + [l];
      WordsEachSnoc(ls[1..], l, sep);
    }
  }

  /**
   The words met by `for line in data.splitlines(): for word in
   line.split()`: each line's words, in line order, concatenated.
   */
  function LineWords(data: string, sep: char -> bool): seq<string>
  {
    Flatten(WordsEach(SplitOn(data, '\n'), sep))
  }

  /** Looping over lines and then over words sees exactly `data.split()`, for whitespace that includes `\n`. */
  lemma LineWordsAreWords(data: string, sep: char -> bool)
    requires sep('\n')
    ensures LineWords(data, sep) == Words(data, sep)
  {
    JoinSplit(data, '\n');
    WordsOfJoin(SplitOn(data, '\n'), '\n', sep);
  }

  /** Two separator predicates agree on every character of `s`. */
  predicate SameSeparators(s: string, sep1: char -> bool, sep2: char -> bool)
  {
    forall k :: 0 <= k < |s| ==> sep1(s[k]) == sep2(s[k])
  }

  lemma SameSeparatorsSuffix(s: string, n: nat, sep1: char -> bool, sep2: char -> bool)
    requires SameSeparators(s, sep1, sep2) && n <= |s|
    ensures SameSeparators(s[n..], sep1, sep2)
  {
    forall k | 0 <= k < |s[n..]| ensures sep1(s[n..][k]) == sep2(s[n..][k]) {
      assert s[n..][k] == s[n + k];
    }
  }

  /** Separators that agree on the text find the same word ends. */
  lemma {:induction false} WordEndOfSameSeparators(s: string, sep1: char -> bool, sep2: char -> bool)
    requires SameSeparators(s, sep1, sep2)
    ensures WordEnd(s, sep1) == WordEnd(s, sep2)
    decreases |s|
  {
    if s != [] && !sep1(s[0]) {
      SameSeparatorsSuffix(s, 1, sep1, sep2);
      WordEndOfSameSeparators(s[1..], sep1, sep2);
    }
  }

  /** Separators that agree on the text split it into the same words. */
  lemma {:induction false} WordsOfSameSeparators(s: string, sep1: char -> bool, sep2: char -> bool)
    requires SameSeparators(s, sep1, sep2)
    ensures Words(s, sep1) == Words(s, sep2)
    decreases |s|
  {
    if s != [] {
      if sep1(s[0]) {
        SameSeparatorsSuffix(s, 1, sep1, sep2);
        WordsOfSameSeparators(s[1..], sep1, sep2);
      } else {
        WordEndOfSameSeparators(s, sep1, sep2);
        var n := WordEnd(s, sep1);
        SameSeparatorsSuffix(s, n, sep1, sep2);
        WordsOfSameSeparators(s[n..], sep1, sep2);
      }
    }
  }

  /** Text whose only whitespace, for either `split()`, is the six ASCII characters. */
  predicate AsciiSpaced(s: string)
  {
    forall k :: 0 <= k < |s| ==> IsStrSpace(s[k]) ==> IsSpace(s[k])
  }

  /** On such text `str.split()` and `bytes.split()` give the same words. */
  lemma WordsAgree(s: string)
    requires AsciiSpaced(s)
    ensures Words(s, IsStrSpace) == Words(s, IsSpace)
  {
    WordsOfSameSeparators(s, IsStrSpace, IsSpace);
  }

  /**
   An information separator is whitespace to `str.split()` but not to
   `bytes.split()`: `"a\x1cb"` is one word for the latter and two for the
   former.
   */
  lemma SeparatorSplitsOnlyStrWords()
    ensures Words("a\U{001C}b", IsSpace) == ["a\U{001C}b"]
    ensures Words("a\U{001C}b", IsStrSpace) == ["a", "b"]
  {
    SeparatorInBytesWord();
    SeparatorBetweenStrWords();
  }

  /** `"a\x1cb"` holds no ASCII whitespace, so `bytes.split()` keeps it whole. */
  lemma SeparatorInBytesWord()
    ensures Words("a\U{001C}b", IsSpace) == ["a\U{001C}b"]
  {
    var s := "a\U{001C}b";
    assert IsWord(s, IsSpace) by {
      assert s[0] == 'a' && s[1] == '\U{001C}' && s[2] == 'b';
    }
    WordsOfWord(s, IsSpace);
  }

  /** `str.split()` breaks `"a\x1cb"` at the information separator. */
  lemma SeparatorBetweenStrWords()
    ensures Words("a\U{001C}b", IsStrSpace) == ["a", "b"]
  {
    var s := "a\U{001C}b";
    assert s == "a" + ['\U{001C}'] + "b";
    WordsAppendSpace("a", '\U{001C}', "b", IsStrSpace);
    WordsOfWord("a", IsStrSpace);
    WordsOfWord("b", IsStrSpace);
  }

  // ---------------------------------------------------------------------------
  // Decimal numerals
  // ---------------------------------------------------------------------------

  predicate IsDigit(ch: char)
  {
    '0' <= ch <= '9'
  }

  /** The character for a digit value. */
  function DigitChar(d: nat): (ch: char)
    requires d < 10
    ensures IsDigit(ch)
  {
    (d + '0' as int) as char
  }

  /** The value of a digit character. */
  function DigitValue(ch: char): (d: nat)
    requires IsDigit(ch)
    ensures d < 10
  {
    ch as int - '0' as int
  }

  /** `str(n)` for a natural number: its decimal digits, most significant first. */
  function Decimal(n: nat): (s: string)
    ensures s != []
    ensures forall k :: 0 <= k < |s| ==> IsDigit(s[k])
    decreases n
  {
    if n < 10 then [DigitChar(n)] else Decimal(n / 10) + [DigitChar(n % 10)]
  }

  /**
   `int(s)` for a string of decimal digits; `None` where Python raises
   `ValueError` (the empty string or a non-digit character).
   */
  function ParseDecimal(s: string): (r: Option<nat>)
    ensures r.None? <==> s == [] || exists k :: 0 <= k < |s| && !IsDigit(s[k])
    decreases |s|
  {
    if s == [] || !IsDigit(s[|s| - 1]) then None
    else if |s| == 1 then Some(DigitValue(s[0]))
    else
      match ParseDecimal(s[..|s| - 1])
      case None => None
      case Some(v) => Some(v * 10 + DigitValue(s[|s| - 1]))
  }

  /** Parsing a rendered number gives the number back. */
  lemma {:induction false} ParseDecimalOfDecimal(n: nat)
    ensures ParseDecimal(Decimal(n)) == Some(n)
    decreases n
  {
    var s := Decimal(n);
    if n >= 10 {
      ParseDecimalOfDecimal(n / 10);
      assert s[..|s| - 1] == Decimal(n / 10);
      assert DigitValue(DigitChar(n % 10)) == n % 10;
    }
  }

  /** A rendered number is a single word. */
  lemma DecimalIsOneWord(n: nat)
    ensures Words(Decimal(n), IsSpace) == [Decimal(n)]
    ensures Words(Decimal(n), IsStrSpace) == [Decimal(n)]
  {
    WordsOfWord(Decimal(n), IsSpace);
    WordsOfWord(Decimal(n), IsStrSpace);
  }
}
