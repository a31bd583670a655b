/**
 * A position reported by the Rosie analysis service: a 1-based line and a
 * 0-based column, turned into an absolute offset in a document's text.
 *
 * The host document is its text, a `seq<char>`. Its line structure follows
 * the editor's: every '\n' ends a line, so a text with n newlines has n + 1
 * lines (the last one possibly empty), and line k (0-based) starts at 0 when
 * k = 0 and just after the k-th newline otherwise.
 */
module RosiePositions {
  import opened Wrappers

  const IntMin: int := -0x8000_0000
  const IntMax: int := 0x7fff_ffff

  /** Java's `int`. */
  type Int32 = x: int | -0x8000_0000 <= x < 0x8000_0000

  /** Java `int` arithmetic: the result of an addition is taken modulo 2^32. */
  function Wrap32(x: int): (r: Int32)
    ensures IntMin <= x <= IntMax ==> r == x
    ensures (x - r) % 0x1_0000_0000 == 0
  {
    (x + 0x8000_0000) % 0x1_0000_0000 - 0x8000_0000
  }

  /** The number of '\n' characters in `t`. */
  function Newlines(t: seq<char>): nat
  {
    if t == [] then 0 else (if t[0] == '\n' then 1 else 0) + Newlines(t[1..])
  }

  /** The editor's line count: one more than the number of newlines. */
  function LineCount(t: seq<char>): nat
  {
    Newlines(t) + 1
  }

  /** The offset at which line `k` (0-based) starts: the editor's `getLineStartOffset(k)`. */
  function LineStart(t: seq<char>, k: nat): (r: nat)
    requires k <= Newlines(t)
    ensures r <= |t|
    decreases |t|
  {
    if k == 0 then 0
    else if t[0] == '\n' then 1 + LineStart(t[1..], k - 1)
    else 1 + LineStart(t[1..], k)
  }

  /** A position as the analysis service reports it. Its fields are Java `int`s. */
  datatype RosiePosition = RosiePosition(line: Int32, col: Int32)

  /**
   * `getOffset`: the start of line `line - 1` plus `col`, added as Java `int`s.
   * The column is not clamped to the line's length. A line outside the
   * document makes the editor throw; that is `None` here.
   */
  function GetOffset(p: RosiePosition, t: seq<char>): (r: Option<Int32>)
    ensures r.Some? <==> 1 <= p.line <= LineCount(t)
  {
    if 1 <= p.line <= LineCount(t) then Some(Wrap32(LineStart(t, p.line - 1) + p.col))
    else None
  }

  // ---------------------------------------------------------------------------
  // What LineStart means: it is the index just after the k-th newline.

  lemma NewlinesAppend(a: seq<char>, b: seq<char>)
    ensures Newlines(a + b) == Newlines(a) + Newlines(b)
  {
    if a == [] {
      assert a + b == b;
    } else {
      assert (a + b)[1..] == a[1..] + b;
      NewlinesAppend(a[1..], b);
    }
  }

  /** For k > 0, the character before LineStart(t, k) is a newline, and it is the k-th one. */
  lemma {:induction false} LineStartAfterKthNewline(t: seq<char>, k: nat)
    requires 0 < k <= Newlines(t)
    ensures 0 < LineStart(t, k) && t[LineStart(t, k) - 1] == '\n'
    ensures Newlines(t[..LineStart(t, k)]) == k
    decreases |t|
  {
    var r := LineStart(t, k);
    assert t[..r] == [t[0]] + t[1..][..r - 1];
    NewlinesAppend([t[0]], t[1..][..r - 1]);
    if t[0] == '\n' {
      if k > 1 {
        LineStartAfterKthNewline(t[1..], k - 1);
      } else {
        assert t[1..][..0] == [];
      }
    } else {
      LineStartAfterKthNewline(t[1..], k);
    }
  }

  /** The characterisation above determines LineStart: a newline that is the k-th one ends exactly at LineStart(t, k). */
  lemma {:induction false} LineStartUnique(t: seq<char>, k: nat, j: nat)
    requires 0 < j <= |t| && t[j - 1] == '\n' && Newlines(t[..j]) == k
    ensures k <= Newlines(t) && LineStart(t, k) == j
    decreases |t|
  {
    assert t[..j] == [t[0]] + t[1..][..j - 1];
    NewlinesAppend([t[0]], t[1..][..j - 1]);
    assert t == t[..j] + t[j..];
    NewlinesAppend(t[..j], t[j..]);
    if j == 1 {
      assert t[1..][..0] == [];
    } else if t[0] == '\n' {
      LineStartUnique(t[1..], k - 1, j - 1);
    } else {
      LineStartUnique(t[1..], k, j - 1);
    }
  }

  /** Later lines start strictly later. */
  lemma {:induction false} LineStartIncreasing(t: seq<char>, k: nat)
    requires k < Newlines(t)
    ensures LineStart(t, k) < LineStart(t, k + 1)
    decreases |t|
  {
    if k > 0 {
      if t[0] == '\n' {
        LineStartIncreasing(t[1..], k - 1);
      } else {
        LineStartIncreasing(t[1..], k);
      }
    }
  }

  // ---------------------------------------------------------------------------
  // Properties of getOffset.

  /** When the sum fits in an `int`, the offset is the line's start plus the column. */
  lemma GetOffsetIsLineStartPlusCol(p: RosiePosition, t: seq<char>)
    requires 1 <= p.line <= LineCount(t)
    requires LineStart(t, p.line - 1) + p.col <= IntMax
    ensures GetOffset(p, t) == Some(LineStart(t, p.line - 1) + p.col as int)
  {
  }

  /** Lines are 1-based: on line 1 the offset is the column itself. */
  lemma GetOffsetFirstLine(c: Int32, t: seq<char>)
    ensures GetOffset(RosiePosition(1, c), t) == Some(c)
  {
  }

  /**
   * On a fixed line the offset strictly increases with the column (while
   * the sum does not overflow), and the column is not clamped: the offset
   * may pass the end of the line and of the document.
   */
  lemma GetOffsetIncreasingInCol(line: Int32, c1: Int32, c2: Int32, t: seq<char>)
    requires 1 <= line <= LineCount(t)
    requires c1 < c2 && LineStart(t, line - 1) + c2 <= IntMax
    ensures GetOffset(RosiePosition(line, c1), t).value < GetOffset(RosiePosition(line, c2), t).value
    ensures GetOffset(RosiePosition(line, c2), t).value - GetOffset(RosiePosition(line, c1), t).value == c2 - c1
  {
  }

  /**
   * On a line after the first, the offset of column `c` is the index that
   * follows the (line-1)-th newline by `c`.
   */
  lemma {:induction false} GetOffsetAfterNewline(p: RosiePosition, t: seq<char>)
    requires 2 <= p.line <= LineCount(t)
    requires LineStart(t, p.line - 1) + p.col <= IntMax
    ensures var base := GetOffset(p, t).value - p.col;
      0 < base <= |t| && t[base - 1] == '\n' && Newlines(t[..base]) == p.line - 1
  {
    LineStartAfterKthNewline(t, p.line - 1);
  }

  /** With the column beyond the end of a one-line text, the offset is past the text's end. */
  lemma GetOffsetNotClamped(t: seq<char>)
    requires Newlines(t) == 0 && |t| < IntMax
    ensures GetOffset(RosiePosition(1, |t| + 1), t) == Some(|t| + 1)
  {
  }
}
