/** The extractor object: it maps the log file, locates the first line of
    the requested date with a chunked binary search over line starts, and
    collects the run of lines that follows. */
module Extractor {
  import opened DateKeys
  import opened LineLayout
  import opened LogFile

  class LogExtractor {
    /** The mapped file's contents and its length. */
    const mappedData: seq<char>
    const fileSize: nat

    ghost predicate Valid() {
      fileSize == |mappedData|
    }

    /** An extractor over a file already mapped into memory. */
    constructor (contents: seq<char>)
      ensures mappedData == contents && Valid()
    {
      mappedData := contents;
      fileSize := |contents|;
    }

    /** Steps back from `pos` to the first byte of its line. */
    method FindLineStart(pos: nat) returns (p: nat)
      requires Valid() && pos <= fileSize
      ensures p == LineStart(mappedData, pos)
    {
      p := pos;
      while p > 0 && mappedData[p - 1] != '\n'
        invariant p <= pos
        invariant LineStart(mappedData, p) == LineStart(mappedData, pos)
        decreases p
      {
        p := p - 1;
      }
    }

    /** The search's walk back from a matching line: steps to the previous
        line while it carries `target`, and stops at offset 0 or at the first
        line whose predecessor carries another date. */
    method WalkBackToRunStart(hit: nat, target: seq<char>) returns (first: nat)
      requires Valid() && DatesInBounds(mappedData)
      requires hit < fileSize && IsLineStart(mappedData, hit) && DateAt(mappedData, hit) == target
      ensures FirstOfRun(mappedData, first, target)
      ensures first <= hit && CarriesThroughout(mappedData, first, hit, target)
      ensures AllDated(mappedData, target) ==> first == 0
    {
      first := hit;
      while first > 0
        invariant first <= hit && IsLineStart(mappedData, first)
        invariant DateAt(mappedData, first) == target
        invariant CarriesThroughout(mappedData, first, hit, target)
        decreases first
      {
        var prev := FindLineStart(first - 1);
        if DateAt(mappedData, prev) != target {
          break;
        }
        CarriesBackOneLine(mappedData, first, hit, target);
        first := prev;
      }
    }

    /** Locates the first line of the run dated `target`, or answers
        `fileSize` when the search finds none. Each probe snaps the midpoint
        of `[left, right)` back to its line start; a match walks back line by
        line to the first line of its run; an earlier date jumps `left` one
        stride past the probe; a later one moves `right` to the probe. */
    method BinarySearch(target: seq<char>) returns (r: nat)
      requires Valid() && DatesInBounds(mappedData) && ShortLines(mappedData)
      ensures r == fileSize || FirstOfRun(mappedData, r, target)
      ensures fileSize > 0 && AllDated(mappedData, target) ==> r == 0
    {
      ghost var uniform := fileSize > 0 && AllDated(mappedData, target);
      var left: nat := 0;
      var right: nat := fileSize;
      while left < right
        invariant right <= fileSize
        invariant uniform ==> left == 0 && right == fileSize
        decreases right - left
      {
        var probe: nat := left + (right - left) / 2;
        var mid: nat := FindLineStart(probe);
        if mid >= fileSize {
          // unreachable: the probe lies below `right`, and snapping only
          // moves it back
          assert false;
        }
        var current := DateAt(mappedData, mid);
        if current == target {
          r := WalkBackToRunStart(mid, target);
          return;
        }
        if LexLess(current, target) {
          SnapWithinChunk(mappedData, probe);
          left := mid + ChunkSize;
        } else {
          right := mid;
        }
      }
      return fileSize;
    }

    /** The collection loop's inner scan: from `pos`, steps forward to the
        line's '\n' or the end of the buffer. */
    method ScanLineEnd(pos: nat) returns (end: nat)
      requires Valid() && pos <= fileSize
      ensures end == LineEnd(mappedData, pos)
    {
      end := pos;
      while end < fileSize && mappedData[end] != '\n'
        invariant pos <= end <= fileSize
        invariant LineEnd(mappedData, end) == LineEnd(mappedData, pos)
        decreases fileSize - end
      {
        end := end + 1;
      }
    }

    /** The collection loop: from `start`, cuts out each line up to its '\n'
        and keeps it while its first ten characters equal `target`. */
    method CollectLines(start: nat, target: seq<char>) returns (lines: seq<seq<char>>)
      requires Valid()
      ensures TextsOf(mappedData, CollectSpans(mappedData, start, target), lines)
    {
      var s := mappedData;
      var pos := start;
      ghost var emitted: seq<LineSpan> := [];
      lines := [];
      while pos < fileSize
        invariant Resumes(s, start, pos, emitted, lines, target)
        decreases fileSize - pos
      {
        var end := ScanLineEnd(pos);
        var line := s[pos..end];
        if LinePrefix(line) != target {
          CollectLoopBreak(s, start, pos, end, line, emitted, lines, target);
          break;
        }
        CollectLoopStep(s, start, pos, end, line, emitted, lines, target);
        lines := lines + [line];
        emitted := emitted + [LineSpan(pos, end)];
        pos := end + 1;
      }
      if pos >= fileSize {
        CollectStopsAt(s, start, pos, emitted, lines, target);
      }
    }

    /** Locates the first line of `target`'s run and collects the lines from
        there. `start` is where the search landed and `lines` what is written
        to the output file, each followed by '\n'. Finding no line is not a
        failure: the result is `true` either way. */
    method ExtractLogs(target: seq<char>) returns (ok: bool, start: nat, lines: seq<seq<char>>)
      requires Valid() && DatesInBounds(mappedData) && ShortLines(mappedData)
      ensures ok
      ensures start >= fileSize ==> lines == []
      ensures start < fileSize ==>
        && FirstOfRun(mappedData, start, target)
        && TextsOf(mappedData, CollectSpans(mappedData, start, target), lines)
      ensures start < fileSize && Sorted(mappedData) && IsDateFormat(target) ==>
        TextsOf(mappedData, MatchingLines(mappedData, target), lines)
      ensures fileSize > 0 && AllDated(mappedData, target) ==> start == 0
      ensures fileSize > 0 && AllDated(mappedData, target) && IsDateFormat(target) ==>
        TextsOf(mappedData, SpansFrom(mappedData, 0), lines)
    {
      start := BinarySearch(target);
      if start >= fileSize {
        return true, start, [];
      }
      lines := CollectLines(start, target);
      if Sorted(mappedData) && IsDateFormat(target) {
        CollectFromRunIsComplete(mappedData, start, target);
      }
      if fileSize > 0 && AllDated(mappedData, target) && IsDateFormat(target) {
        CollectAllWhenAllDated(mappedData, 0, target);
      }
      return true, start, lines;
    }
  }
  /** A 5000-byte file holding one line dated 2024-01-01 and no '\n'. */
  function StallingLog(): (s: seq<char>)
    ensures |s| == 5000
  {
    "2024-01-01" + seq(4990, _ => 'x')
  }

  /** Why the search needs lines shorter than the stride: searching
      StallingLog for 2024-01-02, the first probe (the midpoint 2500 of
      [0, 5000)) snaps to 0, whose date is earlier, so `left` becomes 0 +
      4096; the next probe (4548) snaps to 0 again and sets `left` to 4096
      once more. The lemma states the facts both iterations rest on. */
  lemma LongLineStalls()
    ensures !ShortLines(StallingLog())
    ensures LexLess(DateAt(StallingLog(), 0), "2024-01-02")
    ensures LineStart(StallingLog(), 0 + (5000 - 0) / 2) == 0
    ensures LineStart(StallingLog(), 4096 + (5000 - 4096) / 2) == 0
  {
    var s := StallingLog();
    StallingLogIsOneLine();
    LineStartUnique(s, 2500, 0);
    LineStartUnique(s, 4548, 0);
    OffsetWithinLine(s, 4548);
    StallingLogDate();
  }

  lemma StallingLogIsOneLine()
    ensures forall i :: 0 <= i < |StallingLog()| ==> StallingLog()[i] != '\n'
  {
    var s := StallingLog();
    forall i | 0 <= i < |s|
      ensures s[i] != '\n'
    {
      if i >= 10 {
        assert s[i] == seq(4990, _ => 'x')[i - 10];
      }
    }
  }

  lemma StallingLogDate()
    ensures LexLess(DateAt(StallingLog(), 0), "2024-01-02")
  {
    assert DateAt(StallingLog(), 0) == "2024-01-01";
    LastDigitLess("2024-01-01", "2024-01-02");
  }

  /** Three sorted one-line-per-date entries, each ended by '\n'. */
  function SkippingLog(): (s: seq<char>)
    ensures |s| == 33
  {
    "2024-01-01\n" + "2024-01-02\n" + "2024-01-03\n"
  }

  /** Why only soundness holds: searching SkippingLog for 2024-01-03, the
      only probe (the midpoint 16 of [0, 33)) snaps to the line at 11, whose
      date is earlier, so `left` jumps to 11 + 4096, past the end of the
      buffer; the loop ends and the search reports the file size, although
      the line at 22 carries the date and the lines are in date order. */
  lemma StrideSkipsRun()
    ensures LineStart(SkippingLog(), 0 + (33 - 0) / 2) == 11
    ensures LexLess(DateAt(SkippingLog(), 11), "2024-01-03")
    ensures 11 + ChunkSize >= |SkippingLog()|
    ensures IsLineStart(SkippingLog(), 22) && DateAt(SkippingLog(), 22) == "2024-01-03"
    ensures LexLess(DateAt(SkippingLog(), 0), DateAt(SkippingLog(), 11))
    ensures DatesInBounds(SkippingLog()) && ShortLines(SkippingLog())
  {
    SkippingLogInDomain();
    SkippingLogLineStarts();
    SkippingLogSnap();
    SkippingLogDates();
    SkippingLogOrder();
  }

  /** SkippingLog meets the search's preconditions: its only line starts
      before the end are 0, 11 and 22, and it is shorter than the stride. */
  lemma SkippingLogInDomain()
    ensures DatesInBounds(SkippingLog()) && ShortLines(SkippingLog())
  {
    var s := SkippingLog();
    SkippingLogNewlines();
    forall p | 0 <= p <= |s| && IsLineStart(s, p)
      ensures LineEnd(s, p) - p < ChunkSize
    {
    }
  }

  lemma SkippingLogNewlines()
    ensures forall i :: 0 <= i < |SkippingLog()| && SkippingLog()[i] == '\n' ==> i == 10 || i == 21 || i == 32
  {
    var s := SkippingLog();
    forall i | 0 <= i < |s| && s[i] == '\n'
      ensures i == 10 || i == 21 || i == 32
    {
      if i < 11 {
        assert s[i] == "2024-01-01\n"[i];
      } else if i < 22 {
        assert s[i] == "2024-01-02\n"[i - 11];
      } else {
        assert s[i] == "2024-01-03\n"[i - 22];
      }
    }
  }

  lemma SkippingLogOrder()
    ensures LexLess(DateAt(SkippingLog(), 11), "2024-01-03")
    ensures LexLess(DateAt(SkippingLog(), 0), DateAt(SkippingLog(), 11))
  {
    SkippingLogDates();
    LastDigitLess("2024-01-02", "2024-01-03");
    LastDigitLess("2024-01-01", "2024-01-02");
  }

  /** Two dates that agree up to the last digit compare by that digit. */
  lemma LastDigitLess(a: seq<char>, b: seq<char>)
    requires |a| == DateLen && |b| == DateLen && a[..9] == b[..9] && a[9] < b[9]
    ensures LexLess(a, b)
  {
    assert DiffersFirstAt(a, b, 9);
    LexLessFromWitness(a, b, 9);
  }

  lemma SkippingLogSnap()
    ensures LineStart(SkippingLog(), 16) == 11
  {
    var s := SkippingLog();
    forall i | 11 <= i < 16
      ensures s[i] != '\n'
    {
      assert i == 11 || i == 12 || i == 13 || i == 14 || i == 15;
    }
    LineStartUnique(s, 16, 11);
  }

  lemma SkippingLogLineStarts()
    ensures IsLineStart(SkippingLog(), 11) && IsLineStart(SkippingLog(), 22)
  {
    var s := SkippingLog();
    assert s[10] == "2024-01-01\n"[10];
    assert s[21] == "2024-01-02\n"[10];
  }

  lemma SkippingLogDates()
    ensures DateAt(SkippingLog(), 0) == "2024-01-01"
    ensures DateAt(SkippingLog(), 11) == "2024-01-02"
    ensures DateAt(SkippingLog(), 22) == "2024-01-03"
  {
  }
}
