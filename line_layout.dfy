/** Where lines begin and end in the mapped log buffer. A line is the bytes
    between two '\n' (or the buffer's ends), without the '\n'. */
module LineLayout {

  /** Stride of the search's "too early" jump. */
  const ChunkSize: nat := 4096

  /** Offset `p` is the first byte of a line: the buffer's start, or right
      after a '\n'. The offset one past the end is a line start when the
      buffer is empty or ends with '\n'. */
  predicate IsLineStart(s: seq<char>, p: nat) {
    p <= |s| && (p == 0 || s[p - 1] == '\n')
  }

  /** Start of the line containing offset `pos`: the last line start at or
      before `pos`. */
  function LineStart(s: seq<char>, pos: nat): (p: nat)
    requires pos <= |s|
    ensures p <= pos && IsLineStart(s, p)
    ensures forall i :: p <= i < pos ==> s[i] != '\n'
    decreases pos
  {
    if pos == 0 || s[pos - 1] == '\n' then pos else LineStart(s, pos - 1)
  }

  /** End of the line starting at `p`: the offset of the next '\n', or the
      buffer's length when the last line has no trailing newline. */
  function LineEnd(s: seq<char>, p: nat): (e: nat)
    requires p <= |s|
    ensures p <= e <= |s|
    ensures e == |s| || s[e] == '\n'
    ensures NoNewline(s[p..e])
    decreases |s| - p
  {
    if p == |s| || s[p] == '\n' then p else LineEnd(s, p + 1)
  }

  /** A line's text never holds its terminating '\n'. */
  predicate NoNewline(line: seq<char>) {
    forall i :: 0 <= i < |line| ==> line[i] != '\n'
  }

  /** The text of the line starting at `p`. */
  function LineAt(s: seq<char>, p: nat): (line: seq<char>)
    requires p <= |s|
    ensures NoNewline(line)
  {
    s[p..LineEnd(s, p)]
  }

  /** Every line is shorter than the search stride. */
  ghost predicate ShortLines(s: seq<char>) {
    forall p :: 0 <= p <= |s| && IsLineStart(s, p) ==> LineEnd(s, p) - p < ChunkSize
  }

  /** The snap is determined by its three properties: any line start at or
      before `pos` with no '\n' in between is the one LineStart finds. */
  lemma {:induction false} LineStartUnique(s: seq<char>, pos: nat, p: nat)
    requires pos <= |s| && p <= pos && IsLineStart(s, p)
    requires forall i :: p <= i < pos ==> s[i] != '\n'
    ensures LineStart(s, pos) == p
    decreases pos
  {
    if pos != p {
      LineStartUnique(s, pos - 1, p);
    }
  }

  /** Snapping an offset that already is a line start leaves it there, so
      snapping twice is snapping once. */
  lemma LineStartIdempotent(s: seq<char>, pos: nat)
    requires pos <= |s|
    ensures LineStart(s, LineStart(s, pos)) == LineStart(s, pos)
  {
    var p := LineStart(s, pos);
    LineStartUnique(s, p, p);
  }

  /** LineStart finds the LAST line start: none lies in (LineStart(pos), pos]. */
  lemma LineStartIsGreatest(s: seq<char>, pos: nat, q: nat)
    requires pos <= |s| && q <= pos && IsLineStart(s, q)
    ensures q <= LineStart(s, pos)
  {
  }

  /** An offset lies within its line: it is at most the line's end. */
  lemma OffsetWithinLine(s: seq<char>, pos: nat)
    requires pos <= |s|
    ensures pos <= LineEnd(s, LineStart(s, pos))
  {
  }

  /** With every line shorter than the stride, snapping moves an offset back
      by less than the stride; this is what makes the search progress. */
  lemma SnapWithinChunk(s: seq<char>, pos: nat)
    requires ShortLines(s) && pos <= |s|
    ensures pos - LineStart(s, pos) < ChunkSize
  {
    OffsetWithinLine(s, pos);
  }

  /** The line after the one starting at `p` starts one past its '\n'. */
  lemma NextLineStart(s: seq<char>, p: nat)
    requires p <= |s| && LineEnd(s, p) < |s|
    ensures IsLineStart(s, LineEnd(s, p) + 1)
  {
  }

  /** A later line start lies past the end of this line. */
  lemma LaterLineStartPastEnd(s: seq<char>, p: nat, q: nat)
    requires p < q <= |s| && IsLineStart(s, q)
    ensures LineEnd(s, p) < q
  {
  }
}
