/** The log file as the extractor sees it: a read-only buffer of
    date-prefixed lines. Defines what a probe reads, what a "run" of one date
    is, which lines the collection loop emits, and proves that collecting
    from the first line of a run yields every line of that date when the file
    is sorted. */
module LogFile {
  import opened DateKeys
  import opened LineLayout

  /** The 10 bytes a probe reads at `pos` (`getDateFromLine`). They may run
      past the line's '\n' when the line is shorter than the date field. */
  function DateAt(s: seq<char>, pos: nat): (date: seq<char>)
    requires pos + DateLen <= |s|
    ensures |date| == DateLen
    ensures forall i :: 0 <= i < DateLen ==> date[i] == s[pos + i]
  {
    s[pos..pos + DateLen]
  }

  /** Every line start before the end of the buffer has a full date field
      behind it, so no probe reads past the buffer. */
  ghost predicate DatesInBounds(s: seq<char>) {
    forall p :: 0 <= p < |s| && IsLineStart(s, p) ==> p + DateLen <= |s|
  }

  /** Lines are in non-decreasing order of their date fields. */
  ghost predicate Sorted(s: seq<char>)
    requires DatesInBounds(s)
  {
    forall p, q :: 0 <= p < q < |s| && IsLineStart(s, p) && IsLineStart(s, q) ==>
      LexLe(DateAt(s, p), DateAt(s, q))
  }

  /** `r` is the first line of the run of lines dated `target`: it is a line
      carrying that date, and it is at offset 0 or the line before it carries
      another date. */
  ghost predicate FirstOfRun(s: seq<char>, r: nat, target: seq<char>)
    requires DatesInBounds(s)
  {
    && r < |s| && IsLineStart(s, r) && DateAt(s, r) == target
    && (r == 0 || DateAt(s, LineStart(s, r - 1)) != target)
  }

  /** No line starting at `p` or later carries `target`. */
  ghost predicate NoneCarryFrom(s: seq<char>, p: nat, target: seq<char>)
    requires DatesInBounds(s)
  {
    forall q :: p <= q < |s| && IsLineStart(s, q) ==> DateAt(s, q) != target
  }

  /** Every line starting from `a` to `b` carries `target`. */
  ghost predicate CarriesThroughout(s: seq<char>, a: nat, b: nat, target: seq<char>)
    requires DatesInBounds(s) && b < |s|
  {
    forall q :: a <= q <= b && IsLineStart(s, q) ==> DateAt(s, q) == target
  }

  /** The walk back one line: when the previous line carries `target` too,
      the stretch of lines carrying it reaches back to that line's start. */
  lemma CarriesBackOneLine(s: seq<char>, first: nat, hit: nat, target: seq<char>)
    requires DatesInBounds(s) && 0 < first <= hit < |s|
    requires CarriesThroughout(s, first, hit, target)
    requires DateAt(s, LineStart(s, first - 1)) == target
    ensures CarriesThroughout(s, LineStart(s, first - 1), hit, target)
  {
    var prev := LineStart(s, first - 1);
    forall q | prev <= q <= hit && IsLineStart(s, q)
      ensures DateAt(s, q) == target
    {
      if q < first {
        LineStartIsGreatest(s, first - 1, q);
      }
    }
  }

  /** `line.substr(0, 10)`: the first ten characters, or the whole line when
      it is shorter. */
  function LinePrefix(line: seq<char>): (prefix: seq<char>)
    ensures |prefix| == if |line| < DateLen then |line| else DateLen
    ensures forall i :: 0 <= i < |prefix| ==> prefix[i] == line[i]
  {
    if |line| < DateLen then line else line[..DateLen]
  }

  /** The test the collection loop applies to the line starting at `p`. */
  predicate LineMatches(s: seq<char>, p: nat, target: seq<char>)
    requires p <= |s|
  {
    LinePrefix(LineAt(s, p)) == target
  }

  /** A line as a pair of offsets: its first byte and its terminating '\n'
      (or the buffer's end). */
  datatype LineSpan = LineSpan(start: nat, end: nat)

  /** `lines` are the texts of `spans`, one for one and in order. */
  ghost predicate TextsOf(s: seq<char>, spans: seq<LineSpan>, lines: seq<seq<char>>) {
    && |lines| == |spans|
    && forall k :: 0 <= k < |spans| ==> IsTextOf(s, spans[k], lines[k])
  }

  /** `line` is the text `span` delimits in `s`. */
  ghost predicate IsTextOf(s: seq<char>, span: LineSpan, line: seq<char>) {
    span.start <= span.end <= |s| && line == s[span.start..span.end]
  }

  /** Emitting one more line keeps texts and spans in step. */
  lemma TextsOfSnoc(s: seq<char>, spans: seq<LineSpan>, lines: seq<seq<char>>, span: LineSpan)
    requires TextsOf(s, spans, lines) && span.start <= span.end <= |s|
    ensures TextsOf(s, spans + [span], lines + [s[span.start..span.end]])
  {
  }

  /** The line starting at `p` as a span. */
  function SpanAt(s: seq<char>, p: nat): (span: LineSpan)
    requires p <= |s|
    ensures span.start == p && span.end == LineEnd(s, p)
  {
    LineSpan(p, LineEnd(s, p))
  }

  /** The lines the collection loop emits from offset `pos`: each line in
      turn while its first ten characters equal `target`, stopping at the
      first line that differs or at the end of the buffer. */
  function CollectSpans(s: seq<char>, pos: nat, target: seq<char>): seq<LineSpan>
    decreases |s| - pos
  {
    if pos < |s| && LineMatches(s, pos, target)
    then [SpanAt(s, pos)] + CollectSpans(s, LineEnd(s, pos) + 1, target)
    else []
  }

  /** One turn of the collection loop on a line that passes the test: the
      line joins what was emitted from `start` and the loop goes on one past
      its end. */
  lemma CollectTakesLine(s: seq<char>, start: nat, pos: nat, emitted: seq<LineSpan>, target: seq<char>)
    requires pos < |s| && LineMatches(s, pos, target)
    requires CollectSpans(s, start, target) == emitted + CollectSpans(s, pos, target)
    ensures CollectSpans(s, start, target)
         == (emitted + [SpanAt(s, pos)]) + CollectSpans(s, LineEnd(s, pos) + 1, target)
  {
    CollectSpansUnfold(s, pos, target);
    EmitOneMore(CollectSpans(s, start, target), emitted, CollectSpans(s, pos, target),
                SpanAt(s, pos), CollectSpans(s, LineEnd(s, pos) + 1, target));
  }

  /** Moving the next span from what is still to come onto what was
      emitted. */
  lemma EmitOneMore(whole: seq<LineSpan>, emitted: seq<LineSpan>, tail: seq<LineSpan>,
                    span: LineSpan, rest: seq<LineSpan>)
    requires whole == emitted + tail && tail == [span] + rest
    ensures whole == (emitted + [span]) + rest
  {
  }

  /** One unfolding of CollectSpans on a line that passes the test. */
  lemma CollectSpansUnfold(s: seq<char>, pos: nat, target: seq<char>)
    requires pos < |s| && LineMatches(s, pos, target)
    ensures CollectSpans(s, pos, target) == [SpanAt(s, pos)] + CollectSpans(s, LineEnd(s, pos) + 1, target)
  {
  }

  /** The state of the collection loop at `pos`: `emitted` followed by what
      the loop emits from `pos` is what it emits from `start`, and `lines`
      are the texts of `emitted`. */
  ghost predicate Resumes(s: seq<char>, start: nat, pos: nat, emitted: seq<LineSpan>, lines: seq<seq<char>>, target: seq<char>) {
    && CollectSpans(s, start, target) == emitted + CollectSpans(s, pos, target)
    && TextsOf(s, emitted, lines)
  }

  /** One turn of the collection loop on a matching line keeps its state:
      `line` is the text from `pos` to the line's end `end`, and passes the
      test. */
  lemma CollectLoopStep(s: seq<char>, start: nat, pos: nat, end: nat, line: seq<char>,
                        emitted: seq<LineSpan>, lines: seq<seq<char>>, target: seq<char>)
    requires pos < |s| && end == LineEnd(s, pos) && line == s[pos..end] && LinePrefix(line) == target
    requires Resumes(s, start, pos, emitted, lines, target)
    ensures Resumes(s, start, end + 1, emitted + [LineSpan(pos, end)], lines + [line], target)
  {
    assert LineMatches(s, pos, target);
    CollectTakesLine(s, start, pos, emitted, target);
    TextsOfSnoc(s, emitted, lines, SpanAt(s, pos));
  }

  /** A turn of the collection loop on a line that fails the test ends it. */
  lemma CollectLoopBreak(s: seq<char>, start: nat, pos: nat, end: nat, line: seq<char>,
                         emitted: seq<LineSpan>, lines: seq<seq<char>>, target: seq<char>)
    requires pos < |s| && end == LineEnd(s, pos) && line == s[pos..end] && LinePrefix(line) != target
    requires Resumes(s, start, pos, emitted, lines, target)
    ensures TextsOf(s, CollectSpans(s, start, target), lines)
  {
    assert !LineMatches(s, pos, target);
    CollectStopsAt(s, start, pos, emitted, lines, target);
  }

  /** The collection loop stops at `pos`: what it emitted from `start` is
      all it emits. */
  lemma CollectStopsAt(s: seq<char>, start: nat, pos: nat, emitted: seq<LineSpan>, lines: seq<seq<char>>, target: seq<char>)
    requires StopsAt(s, pos, target)
    requires Resumes(s, start, pos, emitted, lines, target)
    ensures TextsOf(s, CollectSpans(s, start, target), lines)
  {
    assert CollectSpans(s, pos, target) == [];
    assert emitted + [] == emitted;
  }

  /** Where a collection that emitted `spans` from `pos` stands afterwards:
      one past the last emitted line's '\n'. */
  function NextPos(pos: nat, spans: seq<LineSpan>): nat {
    if spans == [] then pos else spans[|spans| - 1].end + 1
  }

  /** The collection loop cannot go on at `n`: the buffer is exhausted or
      the line there does not start with the target date. */
  predicate StopsAt(s: seq<char>, n: nat, target: seq<char>) {
    n >= |s| || !LineMatches(s, n, target)
  }

  /** `span` is a whole line of `s` that passes the loop's test. */
  ghost predicate IsMatchingLine(s: seq<char>, span: LineSpan, target: seq<char>) {
    && span.start < |s|
    && span.end == LineEnd(s, span.start)
    && LineMatches(s, span.start, target)
  }

  /** `spans` are consecutive whole lines of `s` starting at `pos`, in file
      order, with no gap and no overlap, each passing the loop's test. */
  ghost predicate ConsecutiveMatchingLines(s: seq<char>, pos: nat, spans: seq<LineSpan>, target: seq<char>) {
    && (spans != [] ==> spans[0].start == pos)
    && (forall k :: 0 <= k < |spans| ==> IsMatchingLine(s, spans[k], target))
    && (forall k :: 0 < k < |spans| ==> spans[k].start == spans[k - 1].end + 1)
  }

  /** Prepending the matching line just before a run of consecutive
      matching lines keeps them consecutive. */
  lemma ConsecutiveCons(s: seq<char>, p: nat, rest: seq<LineSpan>, target: seq<char>)
    requires p < |s| && LineMatches(s, p, target)
    requires ConsecutiveMatchingLines(s, LineEnd(s, p) + 1, rest, target)
    ensures ConsecutiveMatchingLines(s, p, [SpanAt(s, p)] + rest, target)
    ensures NextPos(p, [SpanAt(s, p)] + rest) == NextPos(LineEnd(s, p) + 1, rest)
  {
    var spans := [SpanAt(s, p)] + rest;
    assert forall k :: 0 < k < |spans| ==> spans[k] == rest[k - 1];
  }

  /** Everything the collection loop promises about what it emits: whole
      lines, consecutive and in file order from `pos`, each starting with the
      target date; and it stops only at the end of the buffer or at the first
      line that does not start with the target date. */
  lemma {:induction false} CollectSpansSound(s: seq<char>, pos: nat, target: seq<char>)
    ensures ConsecutiveMatchingLines(s, pos, CollectSpans(s, pos, target), target)
    ensures StopsAt(s, NextPos(pos, CollectSpans(s, pos, target)), target)
    decreases |s| - pos
  {
    if pos < |s| && LineMatches(s, pos, target) {
      var rest := CollectSpans(s, LineEnd(s, pos) + 1, target);
      CollectSpansUnfold(s, pos, target);
      CollectSpansSound(s, LineEnd(s, pos) + 1, target);
      ConsecutiveCons(s, pos, rest, target);
      assert NextPos(pos, CollectSpans(s, pos, target)) == NextPos(LineEnd(s, pos) + 1, rest);
    } else {
      assert CollectSpans(s, pos, target) == [];
      assert NextPos(pos, CollectSpans(s, pos, target)) == pos;
    }
  }

  /** A probe and the collection loop agree on a well-formed target date:
      the 10 bytes at a line start equal it exactly when the line's first ten
      characters do. */
  lemma ProbeAgreesWithLinePrefix(s: seq<char>, p: nat, target: seq<char>)
    requires IsDateFormat(target) && p + DateLen <= |s|
    ensures DateAt(s, p) == target <==> LineMatches(s, p, target)
  {
    var e := LineEnd(s, p);
    if e - p < DateLen {
      DateFormatHasNoNewline(target);
      assert DateAt(s, p)[e - p] == '\n';
    } else {
      assert LinePrefix(LineAt(s, p)) == DateAt(s, p);
    }
  }

  /** Every line of the buffer from line start `p` on, in file order. A final
      '\n' does not open an extra empty line. */
  function SpansFrom(s: seq<char>, p: nat): (spans: seq<LineSpan>)
    ensures forall k :: 0 <= k < |spans| ==> spans[k].start < |s|
    decreases |s| - p
  {
    if p >= |s| then [] else [SpanAt(s, p)] + SpansFrom(s, LineEnd(s, p) + 1)
  }

  /** The spans of the lines from `p` on that pass the collection loop's
      test, in file order. Unlike the loop, it does not stop at a line that
      fails the test. */
  function MatchingFrom(s: seq<char>, p: nat, target: seq<char>): seq<LineSpan>
    decreases |s| - p
  {
    if p >= |s| then []
    else
      (if LineMatches(s, p, target) then [SpanAt(s, p)] else [])
      + MatchingFrom(s, LineEnd(s, p) + 1, target)
  }

  /** The spans of every line of the file that carries `target`, in file
      order: what a complete extraction emits. */
  function MatchingLines(s: seq<char>, target: seq<char>): seq<LineSpan> {
    MatchingFrom(s, 0, target)
  }

  /** One line of the file, then the rest: the line passes the test or not. */
  lemma MatchingFromStep(s: seq<char>, p: nat, target: seq<char>)
    requires p < |s|
    ensures MatchingFrom(s, p, target)
         == (if LineMatches(s, p, target) then [SpanAt(s, p)] else [])
            + MatchingFrom(s, LineEnd(s, p) + 1, target)
  {
  }

  /** A line that fails the test contributes nothing. */
  lemma MatchingSkipsLine(s: seq<char>, p: nat, target: seq<char>)
    requires p < |s| && !LineMatches(s, p, target)
    ensures MatchingFrom(s, p, target) == MatchingFrom(s, LineEnd(s, p) + 1, target)
  {
    MatchingFromStep(s, p, target);
    var rest := MatchingFrom(s, LineEnd(s, p) + 1, target);
    assert [] + rest == rest;
  }

  /** A line that passes the test is emitted by both, so they agree from
      `p` when they agree from the next line. */
  lemma CollectAndMatchTakeLine(s: seq<char>, p: nat, target: seq<char>)
    requires p < |s| && LineMatches(s, p, target)
    requires CollectSpans(s, LineEnd(s, p) + 1, target) == MatchingFrom(s, LineEnd(s, p) + 1, target)
    ensures CollectSpans(s, p, target) == MatchingFrom(s, p, target)
  {
    MatchingFromStep(s, p, target);
  }

  /** In a sorted file nothing before the first line of a run carries the
      run's date: the first line of a run is the first line of that date. */
  lemma FirstOfRunIsFirst(s: seq<char>, r: nat, target: seq<char>, q: nat)
    requires DatesInBounds(s) && Sorted(s) && FirstOfRun(s, r, target)
    requires q < r && IsLineStart(s, q)
    ensures DateAt(s, q) != target
  {
    var prev := LineStart(s, r - 1);
    LineStartIsGreatest(s, r - 1, q);
    if DateAt(s, q) == target {
      if q < prev {
        assert LexLe(DateAt(s, q), DateAt(s, prev));
      }
      assert LexLe(DateAt(s, prev), DateAt(s, r));
      LexLeAntisymmetric(DateAt(s, prev), target);
    }
  }

  /** Past the first line `m` after the run start `r` that does not carry
      the date, no line carries it: otherwise `m`'s date would lie between
      the target and the target. */
  lemma NoneMatchAfterRun(s: seq<char>, r: nat, m: nat, target: seq<char>)
    requires DatesInBounds(s) && Sorted(s)
    requires r < m < |s| && IsLineStart(s, r) && IsLineStart(s, m)
    requires DateAt(s, r) == target && DateAt(s, m) != target
    ensures NoneCarryFrom(s, m, target)
  {
    forall q | m <= q < |s| && IsLineStart(s, q)
      ensures DateAt(s, q) != target
    {
      if q > m && DateAt(s, q) == target {
        assert LexLe(DateAt(s, r), DateAt(s, m));
        assert LexLe(DateAt(s, m), DateAt(s, q));
        LexLeAntisymmetric(DateAt(s, m), target);
      }
    }
  }

  /** Skipping lines that do not carry `target` does not change which lines
      match: from line start `p` up to line start `r`, none does. */
  lemma {:induction false} SkipNonMatching(s: seq<char>, p: nat, r: nat, target: seq<char>)
    requires DatesInBounds(s) && IsDateFormat(target)
    requires IsLineStart(s, p) && IsLineStart(s, r) && p <= r < |s|
    requires forall q :: p <= q < r && IsLineStart(s, q) ==> DateAt(s, q) != target
    ensures MatchingFrom(s, p, target) == MatchingFrom(s, r, target)
    decreases r - p
  {
    if p < r {
      LaterLineStartPastEnd(s, p, r);
      NextLineStart(s, p);
      SkipOneNonMatching(s, p, target);
      SkipNonMatching(s, LineEnd(s, p) + 1, r, target);
    } else {
      assert p == r;
    }
  }

  /** A line that does not carry `target` contributes no matching line. */
  lemma SkipOneNonMatching(s: seq<char>, p: nat, target: seq<char>)
    requires DatesInBounds(s) && IsDateFormat(target)
    requires p < |s| && IsLineStart(s, p) && DateAt(s, p) != target
    ensures MatchingFrom(s, p, target) == MatchingFrom(s, LineEnd(s, p) + 1, target)
  {
    ProbeAgreesWithLinePrefix(s, p, target);
    MatchingSkipsLine(s, p, target);
  }

  /** From a line start at which no later line carries `target`, nothing
      matches. */
  lemma {:induction false} NoneMatchFrom(s: seq<char>, p: nat, target: seq<char>)
    requires DatesInBounds(s) && IsDateFormat(target) && IsLineStart(s, p)
    requires NoneCarryFrom(s, p, target)
    ensures MatchingFrom(s, p, target) == []
    decreases |s| - p
  {
    if p < |s| {
      SkipOneNonMatching(s, p, target);
      if LineEnd(s, p) < |s| {
        NextLineStart(s, p);
        NoneMatchFrom(s, LineEnd(s, p) + 1, target);
      } else {
        BothEmptyPastEnd(s, LineEnd(s, p) + 1, target);
      }
    } else {
      BothEmptyPastEnd(s, p, target);
    }
  }

  /** From a line start `p` at or after the start `r` of a run in a sorted
      file, the collection loop emits exactly the matching lines from `p`
      on. */
  lemma {:induction false} CollectMatchesFrom(s: seq<char>, r: nat, p: nat, target: seq<char>)
    requires DatesInBounds(s) && Sorted(s) && IsDateFormat(target)
    requires r < |s| && IsLineStart(s, r) && DateAt(s, r) == target
    requires r <= p && IsLineStart(s, p)
    ensures CollectSpans(s, p, target) == MatchingFrom(s, p, target)
    decreases |s| - p
  {
    if p < |s| {
      ProbeAgreesWithLinePrefix(s, p, target);
      if DateAt(s, p) == target {
        var next := LineEnd(s, p) + 1;
        if next <= |s| {
          NextLineStart(s, p);
          CollectMatchesFrom(s, r, next, target);
        } else {
          BothEmptyPastEnd(s, next, target);
        }
        CollectAndMatchTakeLine(s, p, target);
      } else {
        CollectMatchesAfterRun(s, r, p, target);
      }
    }
  }

  /** At or past the end of the buffer there are no lines, and neither emits
      anything. */
  lemma BothEmptyPastEnd(s: seq<char>, p: nat, target: seq<char>)
    requires p >= |s|
    ensures SpansFrom(s, p) == []
    ensures CollectSpans(s, p, target) == [] == MatchingFrom(s, p, target)
  {
  }

  /** At the first line after a run that does not carry the date, both stop:
      the loop breaks, and no later line of the file matches. */
  lemma CollectMatchesAfterRun(s: seq<char>, r: nat, p: nat, target: seq<char>)
    requires DatesInBounds(s) && Sorted(s) && IsDateFormat(target)
    requires r < |s| && IsLineStart(s, r) && DateAt(s, r) == target
    requires r <= p < |s| && IsLineStart(s, p) && DateAt(s, p) != target
    ensures CollectSpans(s, p, target) == [] == MatchingFrom(s, p, target)
  {
    ProbeAgreesWithLinePrefix(s, p, target);
    NoneMatchAfterRun(s, r, p, target);
    NoneMatchFrom(s, p, target);
  }

  /** Every line of the file carries `target` (and has the bytes for it). */
  ghost predicate AllDated(s: seq<char>, target: seq<char>) {
    forall p :: 0 <= p < |s| && IsLineStart(s, p) ==> p + DateLen <= |s| && DateAt(s, p) == target
  }

  /** In a file whose every line carries a validated date, the collection
      loop emits every line from line start `p` on. */
  lemma {:induction false} CollectAllWhenAllDated(s: seq<char>, p: nat, target: seq<char>)
    requires AllDated(s, target) && IsDateFormat(target) && IsLineStart(s, p)
    ensures CollectSpans(s, p, target) == SpansFrom(s, p)
    decreases |s| - p
  {
    if p < |s| {
      ProbeAgreesWithLinePrefix(s, p, target);
      if LineEnd(s, p) < |s| {
        NextLineStart(s, p);
        CollectAllWhenAllDated(s, LineEnd(s, p) + 1, target);
      } else {
        BothEmptyPastEnd(s, LineEnd(s, p) + 1, target);
      }
    }
  }

  /** Correctness of locate-then-collect: in a sorted file, collecting from
      the first line of the run of a well-formed date yields exactly the
      lines of the file that carry that date, in file order, and at least
      that first line. */
  lemma CollectFromRunIsComplete(s: seq<char>, r: nat, target: seq<char>)
    requires DatesInBounds(s) && Sorted(s) && IsDateFormat(target)
    requires FirstOfRun(s, r, target)
    ensures CollectSpans(s, r, target) == MatchingLines(s, target)
    ensures CollectSpans(s, r, target) != []
  {
    forall q | 0 <= q < r && IsLineStart(s, q)
      ensures DateAt(s, q) != target
    {
      FirstOfRunIsFirst(s, r, target, q);
    }
    SkipNonMatching(s, 0, r, target);
    CollectMatchesFrom(s, r, r, target);
    ProbeAgreesWithLinePrefix(s, r, target);
  }
}
