/** The lines of a stream, by position: where a line ends, its text, and what a window shows of it. */
module TextLines {
  import opened Bytes
  import opened Framing
  import opened Records
  import opened Seeking

  /** Just past the line that p is in. */
  function LineEnd(stream: bytes, p: nat): (e: nat)
    requires p < |stream|
    ensures p < e <= |stream|
  {
    var nl := IndexFrom(stream, LF, p);
    if nl < 0 then |stream| else nl + 1
  }

  /** The rest of the line that p is in, without its end. */
  function LineText(stream: bytes, p: nat): bytes
    requires p < |stream|
  {
    var nl := IndexFrom(stream, LF, p);
    TrimCR(if nl < 0 then stream[p..] else stream[p..nl])
  }

  /** The first newline of a window of the stream, and what is before it. */
  lemma WindowLine(stream: bytes, p: nat, n: nat, w: bytes)
    requires p + n <= |stream| && w == stream[p..p + n]
    ensures var i := IndexFrom(w, LF, 0);
      && (i >= 0 ==> IndexFrom(stream, LF, p) == p + i && w[..i] == stream[p..p + i])
      && (i < 0 ==> IndexFrom(stream, LF, p) == IndexFrom(stream, LF, p + n) && forall k | p <= k < p + n :: stream[k] != LF)
  {
    SearchSlice(stream, LF, p, p + n);
    var i := IndexFrom(w, LF, 0);
    if i >= 0 {
      assert w[..i] == stream[p..p + i];
    } else {
      forall k | p <= k < p + n
        ensures stream[k] != LF
      {
        assert stream[k] == w[k - p];
      }
    }
  }

  lemma LineTextStart(stream: bytes, p: nat)
    requires p < |stream| && LineText(stream, p) != []
    ensures LineText(stream, p)[0] == stream[p]
  {
  }

  /** The text of the first line at or after p that is not blank. */
  function NextText(stream: bytes, p: nat): Option<bytes>
    requires p <= |stream|
    decreases |stream| - p
  {
    if p == |stream| then None
    else if LineText(stream, p) != [] then Some(LineText(stream, p))
    else NextText(stream, LineEnd(stream, p))
  }

  lemma NextTextStep(stream: bytes, p: nat, nl: nat, text: bytes)
    requires p <= nl < |stream| && nl == IndexFrom(stream, LF, p) && text == TrimCR(stream[p..nl])
    ensures NextText(stream, p) == if text != [] then Some(text) else NextText(stream, nl + 1)
  {
  }

  lemma LastTextStep(stream: bytes, p: nat, sample: bytes)
    requires p < |stream| && IndexFrom(stream, LF, p) < 0 && sample == stream[p..] && IndexFrom(sample, LF, 0) < 0
    ensures FirstLine(sample) == NextText(stream, p)
  {
    assert NextText(stream, |stream|) == None;
  }

  lemma EmptySample(stream: bytes, sample: bytes)
    requires sample == stream[|stream|..]
    ensures FirstLine(sample) == NextText(stream, |stream|)
  {
  }

  /** It is what a sample of the whole rest shows. */
  lemma {:induction false} FirstLineIsNext(stream: bytes, p: nat, sample: bytes)
    requires p <= |stream| && sample == stream[p..]
    ensures FirstLine(sample) == NextText(stream, p)
    decreases |stream| - p, 1
  {
    if p == |stream| {
      EmptySample(stream, sample);
    } else {
      WindowLine(stream, p, |stream| - p, sample);
      var i := IndexFrom(sample, LF, 0);
      if i >= 0 {
        LineThenNext(stream, p, sample, i, p + i);
      } else {
        LastTextStep(stream, p, sample);
      }
    }
  }

  lemma {:induction false} LineThenNext(stream: bytes, p: nat, sample: bytes, i: nat, nl: nat)
    requires p < |stream| && sample == stream[p..] && i == IndexFrom(sample, LF, 0) && nl == p + i == IndexFrom(stream, LF, p)
    requires sample[..i] == stream[p..nl]
    ensures FirstLine(sample) == NextText(stream, p)
    decreases |stream| - p, 0
  {
    var rest := sample[i + 1..];
    assert rest == stream[nl + 1..];
    FirstLineStep(sample, i);
    NextTextStep(stream, p, nl, TrimCR(stream[p..nl]));
    FirstLineIsNext(stream, nl + 1, rest);
  }

  /** What resynchronisation sees at p. */
  lemma VerdictIs(log: Log, starts: bytes -> bool, verdicts: seq<Verdict>, p: nat)
    requires AreVerdicts(verdicts, log, starts) && p <= |log.stream|
    ensures var text := NextText(log.stream, p);
      verdicts[p] == if text.None? then Blank else if starts(text.value) then Starts else Interior
  {
    assert verdicts[p] == Judge(starts, Rest(log, p));
    FirstLineIsNext(log.stream, p, Rest(log, p));
  }

  /** Just past the first line at or after p that is not blank; the end of the stream when there is none. */
  function ContentEnd(stream: bytes, p: nat): (e: nat)
    requires p <= |stream|
    ensures p <= e <= |stream|
    decreases |stream| - p
  {
    if p == |stream| then p
    else if LineText(stream, p) != [] then LineEnd(stream, p)
    else ContentEnd(stream, LineEnd(stream, p))
  }

  /** A window that shows all of that line shows the same line first. */
  lemma {:induction false} WindowShows(stream: bytes, p: nat, e: nat, sample: bytes)
    requires p <= e <= |stream| && sample == stream[p..e] && ContentEnd(stream, p) <= e
    ensures FirstLine(sample) == NextText(stream, p)
    decreases |stream| - p, 1
  {
    if e == |stream| {
      assert sample == stream[p..];
      FirstLineIsNext(stream, p, sample);
    } else {
      var i, nl := FirstNewline(stream, p, e, sample);
      WindowGoesOn(stream, p, e, sample, i, nl);
    }
  }

  lemma FirstNewline(stream: bytes, p: nat, e: nat, sample: bytes) returns (i: nat, nl: nat)
    requires p <= e < |stream| && sample == stream[p..e] && ContentEnd(stream, p) <= e
    ensures i == IndexFrom(sample, LF, 0) < |sample| && nl == p + i == IndexFrom(stream, LF, p) < e && sample[..i] == stream[p..nl]
  {
    LineIsInside(stream, p, e - p, sample);
    WindowFrom(stream, p, e - p, sample, 0);
    i := IndexFrom(sample, LF, 0);
    nl := p + i;
  }

  lemma ContentStep(stream: bytes, p: nat, nl: nat)
    requires p <= nl < |stream| && nl == IndexFrom(stream, LF, p)
    ensures ContentEnd(stream, p) == if TrimCR(stream[p..nl]) != [] then nl + 1 else ContentEnd(stream, nl + 1)
  {
  }

  lemma RestOfWindow(stream: bytes, p: nat, e: nat, i: nat, nl: nat)
    requires p <= nl < e <= |stream| && nl == p + i
    ensures stream[p..e][i + 1..] == stream[nl + 1..e]
  {
  }

  /** The first line with content, given the text of the first line and what is behind it. */
  lemma FirstLineIs(sample: bytes, i: nat, text: bytes, rest: bytes)
    requires i == IndexFrom(sample, LF, 0) < |sample| && text == TrimCR(sample[..i]) && rest == sample[i + 1..]
    ensures FirstLine(sample) == if text != [] then Some(text) else FirstLine(rest)
  {
  }

  lemma {:induction false} WindowGoesOn(stream: bytes, p: nat, e: nat, sample: bytes, i: nat, nl: nat)
    requires p <= nl < e < |stream| && sample == stream[p..e] && ContentEnd(stream, p) <= e
    requires i == IndexFrom(sample, LF, 0) < |sample| && nl == p + i == IndexFrom(stream, LF, p) && sample[..i] == stream[p..nl]
    ensures FirstLine(sample) == NextText(stream, p)
    decreases |stream| - p, 0
  {
    var text, rest := TrimCR(stream[p..nl]), stream[nl + 1..e];
    RestOfWindow(stream, p, e, i, nl);
    FirstLineIs(sample, i, text, rest);
    NextTextStep(stream, p, nl, text);
    if text == [] {
      RestShows(stream, p, e, nl, rest);
    }
  }

  lemma {:induction false} RestShows(stream: bytes, p: nat, e: nat, nl: nat, rest: bytes)
    requires p <= nl < e <= |stream| && rest == stream[nl + 1..e] && nl == IndexFrom(stream, LF, p)
    requires TrimCR(stream[p..nl]) == [] && ContentEnd(stream, p) <= e
    ensures FirstLine(rest) == NextText(stream, nl + 1)
    decreases |stream| - nl - 1, 2
  {
    ContentStep(stream, p, nl);
    WindowShows(stream, nl + 1, e, rest);
  }

  lemma LineIsInside(stream: bytes, p: nat, n: nat, sample: bytes)
    requires p + n < |stream| && sample == stream[p..p + n] && ContentEnd(stream, p) <= p + n
    ensures var i := IndexFrom(sample, LF, 0); i >= 0 && LineEnd(stream, p) == p + i + 1 && LineText(stream, p) == TrimCR(sample[..i])
  {
    WindowLine(stream, p, n, sample);
    assert LineEnd(stream, p) <= ContentEnd(stream, p);
  }

  lemma FirstLineStep(sample: bytes, i: nat)
    requires IndexFrom(sample, LF, 0) == i
    ensures FirstLine(sample) == if TrimCR(sample[..i]) != [] then Some(TrimCR(sample[..i])) else FirstLine(sample[i + 1..])
  {
  }

  /** The bytes that are sure to be seen at p show a whole line with content, or all of the rest. */
  predicate IsShown(log: Log, p: nat)
    requires p <= |log.stream|
  {
    ContentEnd(log.stream, p) <= p + Seen(log, p)
  }

  /** Then the position is clear, whatever the test. */
  lemma ShownIsClear(log: Log, starts: bytes -> bool, p: nat)
    requires p <= |log.stream| && IsShown(log, p)
    ensures Clear(log, starts, p)
  {
    FirstLineIsNext(log.stream, p, Rest(log, p));
    forall n | Seen(log, p) <= n <= |log.stream| - p
      ensures Judge(starts, Sample(log, p, n)) == Judge(starts, Rest(log, p))
    {
      WindowShows(log.stream, p, p + n, Sample(log, p, n));
    }
  }

  /** A whole line with content within the first 8,192 bytes, or as many as a record may have, is enough. */
  lemma NearLineIsClear(log: Log, starts: bytes -> bool, p: nat)
    requires p <= |log.stream| && ContentEnd(log.stream, p) <= p + 8192 && ContentEnd(log.stream, p) <= p + log.max
    ensures Clear(log, starts, p)
  {
    ShownIsClear(log, starts, p);
  }

  /** The first newline of a window from pos on, and what is before it. */
  lemma WindowFrom(stream: bytes, p: nat, n: nat, w: bytes, pos: nat)
    requires p + n <= |stream| && w == stream[p..p + n] && pos <= n
    ensures var i := IndexFrom(w, LF, pos);
      && (i >= 0 ==> IndexFrom(stream, LF, p + pos) == p + i && w[pos..i] == stream[p + pos..p + i])
      && (i < 0 ==> forall k | p + pos <= k < p + n :: stream[k] != LF)
  {
    var i := IndexFrom(w, LF, pos);
    forall k | pos <= k < n
      ensures w[k] == stream[p + k]
    {
    }
    if i >= 0 {
      assert stream[p + i] == LF && forall k | p + pos <= k < p + i :: stream[k] == w[k - p];
    } else {
      assert forall k | p + pos <= k < p + n :: stream[k] == w[k - p];
    }
  }
}
