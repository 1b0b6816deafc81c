/**
 The line-buffering loop of `lithops logs poll` (the `follow` generator in
 lithops/scripts/cli.py). Each iteration either finds the log file gone and
 stops, or reads what `readline()` returns: an empty read means nothing new
 (the source sleeps a second and retries), anything else is appended to a
 buffer, and the buffer is yielded and emptied once it ends in a newline.
 The sleeping and the file-existence check are reduced to the sequence of
 observations the loop makes.
 */
module LogFollow {
  import opened Wrappers
  import opened Seqs

  /** What one iteration of the loop observes. */
  datatype Poll = FileMissing | Read(chunk: string)

  predicate EndsInNewline(s: string)
  {
    s != [] && s[|s| - 1] == '\n'
  }

  /** The buffer after one read, and the line yielded by it, if any. */
  datatype Feed = Feed(buffer: string, yielded: Option<string>)

  /**
   One read. An empty read changes nothing and yields nothing; otherwise the
   chunk joins the buffer, and the result is yielded, leaving the buffer
   empty, exactly when it ends in a newline. No character is lost or added.
   */
  function Step(buffer: string, chunk: string): (r: Feed)
    ensures chunk == [] ==> r == Feed(buffer, None)
    ensures r.yielded.GetOr([]) + r.buffer == buffer + chunk
    ensures r.yielded.Some? ==> EndsInNewline(r.yielded.value) && r.buffer == []
    ensures chunk != [] && r.yielded.None? ==> !EndsInNewline(r.buffer)
  {
    if chunk == [] then Feed(buffer, None)
    else
      var line := buffer + chunk;
      if EndsInNewline(line) then Feed([], Some(line)) else Feed(line, None)
  }

  /** The number of reads before the file is first found missing. */
  function LeadingReads(polls: seq<Poll>): (n: nat)
    ensures n <= |polls|
    ensures forall k :: 0 <= k < n ==> polls[k].Read?
    ensures n < |polls| ==> polls[n].FileMissing?
    decreases |polls|
  {
    if polls == [] || polls[0].FileMissing? then 0 else 1 + LeadingReads(polls[1..])
  }

  /** The text of each observation; a missing file contributes nothing. */
  function Chunks(polls: seq<Poll>): (cs: seq<string>)
    ensures |cs| == |polls|
    ensures forall k :: 0 <= k < |polls| && polls[k].Read? ==> cs[k] == polls[k].chunk
  {
    seq(|polls|, k requires 0 <= k < |polls| => if polls[k].Read? then polls[k].chunk else [])
  }

  /** Everything the loop reads before it stops, concatenated. */
  function TextRead(polls: seq<Poll>): string
  {
    Flatten(Chunks(polls[..LeadingReads(polls)]))
  }

  /** The text of the first `i + 1` observations is that of the first `i` and then read `i`. */
  lemma ChunksSnoc(polls: seq<Poll>, i: nat)
    requires i < |polls| && polls[i].Read?
    ensures Flatten(Chunks(polls[..i + 1])) == Flatten(Chunks(polls[..i])) + polls[i].chunk
  {
    assert Chunks(polls[..i + 1]) == Chunks(polls[..i]) + [polls[i].chunk];
    FlattenSnoc(Chunks(polls[..i]), polls[i].chunk);
  }

  /** `readline()` output: a newline can only be its last character. */
  predicate ReadlineShaped(chunk: string)
  {
    forall k :: 0 <= k < |chunk| - 1 ==> chunk[k] != '\n'
  }

  /** Every read before the loop stops is `readline()`-shaped. */
  ghost predicate ReadsAreLines(polls: seq<Poll>)
  {
    forall k :: 0 <= k < LeadingReads(polls) ==> ReadlineShaped(polls[k].chunk)
  }

  /**
   Runs the loop over a finite sequence of observations until the file is
   found missing (or the observations run out), and returns the yielded
   lines and the unfinished buffer. The yielded lines followed by the buffer
   are exactly the text read; every yielded line ends in a newline and the
   buffer does not. When the reads are `readline()` results, each yielded
   line holds its only newline at the end and the buffer holds none, so the
   yielded lines are the read text up to and including its last newline.
   */
  method Follow(polls: seq<Poll>) returns (lines: seq<string>, buffer: string)
    ensures Flatten(lines) + buffer == TextRead(polls)
    ensures forall j :: 0 <= j < |lines| ==> EndsInNewline(lines[j])
    ensures !EndsInNewline(buffer)
    ensures ReadsAreLines(polls) ==>
              '\n' !in buffer && forall j :: 0 <= j < |lines| ==> ReadlineShaped(lines[j])
  {
    lines := [];
    buffer := [];
    var n := LeadingReads(polls);
    var i := 0;
    while i < |polls| && polls[i].Read?
      invariant 0 <= i <= n
      invariant Flatten(lines) + buffer == Flatten(Chunks(polls[..i]))
      invariant forall j :: 0 <= j < |lines| ==> EndsInNewline(lines[j])
      invariant !EndsInNewline(buffer)
      invariant ReadsAreLines(polls) ==>
                  '\n' !in buffer && forall j :: 0 <= j < |lines| ==> ReadlineShaped(lines[j])
    {
      var chunk := polls[i].chunk;
      var step := Step(buffer, chunk);
      ChunksSnoc(polls, i);
      if ReadsAreLines(polls) {
        StepKeepsShape(lines, buffer, chunk);
      }
      StepKeepsText(lines, buffer, chunk);
      StepKeepsLines(lines, buffer, chunk);
      lines := lines + Emitted(step);
      buffer := step.buffer;
      i := i + 1;
    }
    assert i == n;
  }

  /** The lines one read yields: none or one. */
  function Emitted(step: Feed): (ls: seq<string>)
    ensures step.yielded.None? ==> ls == []
    ensures step.yielded.Some? ==> ls == [step.yielded.value]
  {
    if step.yielded.Some? then [step.yielded.value] else []
  }

  /** After one read, the yielded lines and the buffer still hold exactly the text read. */
  lemma StepKeepsText(lines: seq<string>, buffer: string, chunk: string)
    ensures var step := Step(buffer, chunk);
      Flatten(lines + Emitted(step)) + step.buffer == Flatten(lines) + buffer + chunk
  {
    var step := Step(buffer, chunk);
    if step.yielded.Some? {
      FlattenSnoc(lines, step.yielded.value);
    } else {
      assert lines + Emitted(step) == lines;
    }
  }

  /** After one read every yielded line still ends in a newline. */
  lemma StepKeepsLines(lines: seq<string>, buffer: string, chunk: string)
    requires forall j :: 0 <= j < |lines| ==> EndsInNewline(lines[j])
    ensures var ls := lines + Emitted(Step(buffer, chunk));
      forall j :: 0 <= j < |ls| ==> EndsInNewline(ls[j])
  {
  }

  /** With `readline()`-shaped reads, one read keeps the buffer newline-free and every line single. */
  lemma StepKeepsShape(lines: seq<string>, buffer: string, chunk: string)
    requires '\n' !in buffer && ReadlineShaped(chunk)
    requires forall j :: 0 <= j < |lines| ==> ReadlineShaped(lines[j])
    ensures var step := Step(buffer, chunk);
      var ls := lines + Emitted(step);
      '\n' !in step.buffer && forall j :: 0 <= j < |ls| ==> ReadlineShaped(ls[j])
  {
    LineShape(buffer, chunk, Step(buffer, chunk));
  }

  /** One read of a `readline()`-shaped chunk onto a newline-free buffer keeps the shapes. */
  lemma LineShape(buffer: string, chunk: string, step: Feed)
    requires '\n' !in buffer && ReadlineShaped(chunk)
    requires step == Step(buffer, chunk)
    ensures '\n' !in step.buffer
    ensures step.yielded.Some? ==> ReadlineShaped(step.yielded.value)
  {
    if chunk != [] {
      var line := buffer + chunk;
      forall k | 0 <= k < |line| - 1 ensures line[k] != '\n' {
        if k < |buffer| {
          assert line[k] == buffer[k] && buffer[k] in buffer;
        } else {
          assert line[k] == chunk[k - |buffer|];
        }
      }
      if step.yielded.None? {
        assert line[|line| - 1] != '\n';
      }
    }
  }
}
