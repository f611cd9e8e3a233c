/** Date keys: the fixed-width `YYYY-MM-DD` field at the head of every log
    line, the format check `validateDate` applies to the target date, and the
    lexicographic order `std::string` comparison puts on keys. */
module DateKeys {

  /** Width of the date field every line starts with. */
  const DateLen: nat := 10

  /** `std::isdigit` in the C locale. */
  predicate IsDigit(c: char) {
    '0' <= c <= '9'
  }

  /** Reference definition of the accepted format: ten characters, a dash at
      indices 4 and 7, an ASCII digit everywhere else. No calendar check. */
  predicate IsDateFormat(date: seq<char>) {
    && |date| == DateLen
    && date[4] == '-' && date[7] == '-'
    && forall j :: 0 <= j < DateLen && j != 4 && j != 7 ==> IsDigit(date[j])
  }

  /** The format check run on the command-line argument before extraction. */
  method ValidateDate(date: seq<char>) returns (ok: bool)
    ensures ok <==> IsDateFormat(date)
  {
    if |date| != DateLen {
      return false;
    }
    if date[4] != '-' || date[7] != '-' {
      return false;
    }
    for i := 0 to DateLen
      invariant forall j :: 0 <= j < i && j != 4 && j != 7 ==> IsDigit(date[j])
    {
      if i == 4 || i == 7 {
        continue;
      }
      if !IsDigit(date[i]) {
        return false;
      }
    }
    return true;
  }

  /** A well-formed date never contains a line break, so it can only be
      matched by bytes that lie inside one line. */
  lemma DateFormatHasNoNewline(date: seq<char>)
    requires IsDateFormat(date)
    ensures forall j :: 0 <= j < |date| ==> date[j] != '\n'
  {
  }

  /** Only the shape is checked: a month 13 and a day 45 pass. */
  lemma NoCalendarCheck()
    ensures IsDateFormat("2024-13-45")
    ensures IsDateFormat("0000-00-00")
    ensures !IsDateFormat("2024-1-01")
    ensures !IsDateFormat("2024/01/01")
  {
  }

  /** `std::string::operator<`: compare position by position; at the first
      difference the smaller character wins, and a proper prefix is smaller. */
  predicate LexLess(a: seq<char>, b: seq<char>)
    decreases |a|
  {
    if |a| == 0 then |b| > 0
    else if |b| == 0 then false
    else a[0] < b[0] || (a[0] == b[0] && LexLess(a[1..], b[1..]))
  }

  predicate LexLe(a: seq<char>, b: seq<char>) {
    a == b || LexLess(a, b)
  }

  /** The non-recursive reading of LexLess: a common prefix of length k,
      followed either by a smaller character in `a` or by the end of `a`. */
  predicate DiffersFirstAt(a: seq<char>, b: seq<char>, k: nat) {
    && k <= |a| && k <= |b|
    && a[..k] == b[..k]
    && ((k < |a| && k < |b| && a[k] < b[k]) || (k == |a| && k < |b|))
  }

  lemma {:induction false} LexLessFromWitness(a: seq<char>, b: seq<char>, k: nat)
    requires DiffersFirstAt(a, b, k)
    ensures LexLess(a, b)
    decreases k
  {
    if k > 0 {
      assert a[0] == a[..k][0] == b[..k][0] == b[0];
      assert a[1..][..k - 1] == a[..k][1..] == b[..k][1..] == b[1..][..k - 1];
      LexLessFromWitness(a[1..], b[1..], k - 1);
    }
  }

  lemma {:induction false} LexLessHasWitness(a: seq<char>, b: seq<char>)
    requires LexLess(a, b)
    ensures exists k: nat :: DiffersFirstAt(a, b, k)
    decreases |a|
  {
    if |a| == 0 || a[0] < b[0] {
      assert DiffersFirstAt(a, b, 0);
    } else {
      LexLessHasWitness(a[1..], b[1..]);
      var k: nat :| DiffersFirstAt(a[1..], b[1..], k);
      assert a[..k + 1] == [a[0]] + a[1..][..k];
      assert b[..k + 1] == [b[0]] + b[1..][..k];
      assert DiffersFirstAt(a, b, k + 1);
    }
  }

  /** Exactly one of `<`, `==`, `>` holds, which is what makes the three
      branches of the search exhaustive and exclusive. */
  lemma {:induction false} LexTrichotomy(a: seq<char>, b: seq<char>)
    ensures LexLess(a, b) || a == b || LexLess(b, a)
    ensures !(LexLess(a, b) && LexLess(b, a))
    ensures LexLess(a, b) ==> a != b
    decreases |a|
  {
    if |a| > 0 && |b| > 0 {
      LexTrichotomy(a[1..], b[1..]);
      if a[0] == b[0] && a[1..] == b[1..] {
        assert a == [a[0]] + a[1..] && b == [b[0]] + b[1..];
      }
    }
  }

  /** `<` on date strings is transitive. */
  lemma {:induction false} LexLessTransitive(a: seq<char>, b: seq<char>, c: seq<char>)
    requires LexLess(a, b) && LexLess(b, c)
    ensures LexLess(a, c)
    decreases |a|
  {
    if |a| > 0 && a[0] == b[0] && b[0] == c[0] {
      LexLessTransitive(a[1..], b[1..], c[1..]);
    }
  }

  lemma LexLeAntisymmetric(a: seq<char>, b: seq<char>)
    requires LexLe(a, b) && LexLe(b, a)
    ensures a == b
  {
    LexTrichotomy(a, b);
  }
}
