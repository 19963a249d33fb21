/**
 * The byte helpers of the `bytes` crate (and the identical `find_sequence` /
 * `split_at_sequence_exclusive` copy of the early draft): first-byte search,
 * leftmost subsequence search, splitting after a sequence, and the two
 * cursor-style iterators `NewlineIter` (lines keep their `\n`) and `TabIter`
 * (spans between `-->8` separators).
 */
module Bytes {
  import opened Wrappers

  type Byte = b: int | 0 <= b < 256

  const NEWLINE: Byte := 10

  /** The bytes of an ASCII string literal. */
  function Ascii(s: string): (r: seq<Byte>)
    requires forall i | 0 <= i < |s| :: s[i] as int < 128
    ensures |r| == |s|
    ensures forall i | 0 <= i < |s| :: r[i] == s[i] as int
  {
    seq(|s|, i requires 0 <= i < |s| => s[i] as int)
  }

  // ---------------------------------------------------------------------
  // First-byte search and line splitting
  // ---------------------------------------------------------------------

  /** The index of the first occurrence of `byte` in `src`, if there is one. */
  function FirstIndexOf(src: seq<Byte>, byte: Byte): (r: Option<nat>)
    ensures r.Some? ==> r.value < |src| && src[r.value] == byte
    ensures r.Some? ==> forall j | 0 <= j < r.value :: src[j] != byte
    ensures r.None? <==> byte !in src
    decreases |src|
  {
    if src == [] then None
    else if src[0] == byte then Some(0)
    else match FirstIndexOf(src[1..], byte)
      case None => None
      case Some(i) => Some(i + 1)
  }

  /** `find_index_of_element_const`: a forward scan that stops at the first match. */
  method FindIndexOfElement(src: seq<Byte>, byte: Byte) returns (found: Option<nat>)
    ensures found == FirstIndexOf(src, byte)
  {
    var i := 0;
    found := None;
    while i < |src|
      invariant 0 <= i <= |src|
      invariant found == None
      invariant forall j | 0 <= j < i :: src[j] != byte
    {
      if src[i] == byte {
        found := Some(i);
        break;
      }
      i := i + 1;
    }
  }

  predicate EndsInNewline(s: seq<Byte>)
  {
    |s| > 0 && s[|s| - 1] == NEWLINE
  }

  /** A non-empty chunk holding no newline except, possibly, as its last byte. */
  predicate IsLine(s: seq<Byte>)
  {
    |s| > 0 && NEWLINE !in s[..|s| - 1]
  }

  /** `splitln_const`: split right after the first newline, which stays in the first part. */
  function SplitLn(src: seq<Byte>): (r: Option<(seq<Byte>, seq<Byte>)>)
    ensures r.None? <==> NEWLINE !in src
    ensures r.Some? ==> r.value.0 + r.value.1 == src
    ensures r.Some? ==> IsLine(r.value.0) && EndsInNewline(r.value.0)
  {
    match FirstIndexOf(src, NEWLINE)
    case None => None
    case Some(i) =>
      assert src[..i + 1][..i] == src[..i];
      Some((src[..i + 1], src[i + 1..]))
  }

  // ---------------------------------------------------------------------
  // Subsequence search
  // ---------------------------------------------------------------------

  /** `pattern` occurs in `s` starting at index `j`. */
  predicate OccursAt(s: seq<Byte>, pattern: seq<Byte>, j: int)
  {
    0 <= j && j + |pattern| <= |s| && s[j..j + |pattern|] == pattern
  }

  predicate Contains(s: seq<Byte>, pattern: seq<Byte>)
  {
    exists j | 0 <= j <= |s| :: OccursAt(s, pattern, j)
  }

  /** The windows of `bytes` from index `from` on, searched in order. */
  function FindSequenceFrom(bytes: seq<Byte>, pattern: seq<Byte>, from: nat): (r: Option<nat>)
    requires |pattern| > 0
    ensures r.Some? ==> from <= r.value && OccursAt(bytes, pattern, r.value)
    ensures r.Some? ==> forall j | from <= j < r.value :: !OccursAt(bytes, pattern, j)
    ensures r.None? ==> forall j | from <= j :: !OccursAt(bytes, pattern, j)
    decreases |bytes| - from
  {
    if from + |pattern| > |bytes| then None
    else if bytes[from..from + |pattern|] == pattern then Some(from)
    else FindSequenceFrom(bytes, pattern, from + 1)
  }

  /**
   * `find_sequence`: the index of the leftmost window of `bytes` equal to
   * `pattern`. `windows(0)` panics, so the pattern must be non-empty.
   */
  function FindSequence(bytes: seq<Byte>, pattern: seq<Byte>): (r: Option<nat>)
    requires |pattern| > 0
    ensures r.Some? ==> OccursAt(bytes, pattern, r.value)
    ensures r.Some? ==> forall j | 0 <= j < r.value :: !OccursAt(bytes, pattern, j)
    ensures r.None? <==> !Contains(bytes, pattern)
    ensures |pattern| > |bytes| ==> r.None?
  {
    FindSequenceFrom(bytes, pattern, 0)
  }

  /**
   * `split_at_sequence_exclusive`: split right after the leftmost occurrence
   * of `pattern`, which stays at the end of the first part.
   */
  function SplitAtSequenceExclusive(bytes: seq<Byte>, pattern: seq<Byte>): (r: Option<(seq<Byte>, seq<Byte>)>)
    requires |pattern| > 0
    ensures r.None? <==> FindSequence(bytes, pattern).None?
    ensures r.Some? ==> r.value.0 + r.value.1 == bytes
    ensures r.Some? ==> |r.value.0| >= |pattern| && r.value.0[|r.value.0| - |pattern|..] == pattern
    ensures r.Some? ==> forall j | 0 <= j < |r.value.0| - |pattern| :: !OccursAt(r.value.0, pattern, j)
  {
    match FindSequence(bytes, pattern)
    case None => None
    case Some(i) =>
      var cut := i + |pattern|;
      assert forall j | 0 <= j < i :: OccursAt(bytes[..cut], pattern, j) ==> OccursAt(bytes, pattern, j) by {
        forall j | 0 <= j < i && OccursAt(bytes[..cut], pattern, j)
          ensures OccursAt(bytes, pattern, j)
        {
          assert bytes[..cut][j..j + |pattern|] == bytes[j..j + |pattern|];
        }
      }
      Some((bytes[..cut], bytes[cut..]))
  }

  // ---------------------------------------------------------------------
  // Counting and concatenation helpers
  // ---------------------------------------------------------------------

  function Count(s: seq<Byte>, b: Byte): (n: nat)
    ensures n <= |s|
  {
    if s == [] then 0 else (if s[0] == b then 1 else 0) + Count(s[1..], b)
  }

  lemma {:induction false} CountAppend(a: seq<Byte>, c: seq<Byte>, b: Byte)
    ensures Count(a + c, b) == Count(a, b) + Count(c, b)
  {
    if a == [] {
      assert a + c == c;
    } else {
      assert (a + c)[1..] == a[1..] + c;
      CountAppend(a[1..], c, b);
    }
  }

  lemma {:induction false} CountAbsent(s: seq<Byte>, b: Byte)
    ensures Count(s, b) == 0 <==> b !in s
  {
    if s != [] {
      CountAbsent(s[1..], b);
      assert s == [s[0]] + s[1..];
    }
  }

  /** The bytes of all chunks, one after another. */
  function Concat(chunks: seq<seq<Byte>>): seq<Byte>
  {
    if chunks == [] then [] else chunks[0] + Concat(chunks[1..])
  }

  lemma {:induction false} ConcatAppend(xs: seq<seq<Byte>>, ys: seq<seq<Byte>>)
    ensures Concat(xs + ys) == Concat(xs) + Concat(ys)
  {
    if xs == [] {
      assert xs + ys == ys;
    } else {
      assert (xs + ys)[1..] == xs[1..] + ys;
      ConcatAppend(xs[1..], ys);
    }
  }

  // ---------------------------------------------------------------------
  // NewlineIter
  // ---------------------------------------------------------------------

  /** Every line `NewlineIter` yields over `src`, in order. */
  function Lines(src: seq<Byte>): seq<seq<Byte>>
    decreases |src|
  {
    match SplitLn(src)
    case None => if src == [] then [] else [src]
    case Some((line, rest)) => [line] + Lines(rest)
  }

  /** Concatenating the yielded lines gives back the input. */
  lemma {:induction false} LinesConcat(src: seq<Byte>)
    ensures Concat(Lines(src)) == src
  {
    match SplitLn(src)
    case None =>
    case Some((line, rest)) =>
      LinesConcat(rest);
      assert Lines(src)[1..] == Lines(rest);
  }

  /** A terminated line holds exactly one newline. */
  lemma {:induction false} CountOfLine(line: seq<Byte>)
    requires IsLine(line) && EndsInNewline(line)
    ensures Count(line, NEWLINE) == 1
  {
    var body := line[..|line| - 1];
    assert line == body + [NEWLINE];
    CountAppend(body, [NEWLINE], NEWLINE);
    CountAbsent(body, NEWLINE);
    assert [NEWLINE][1..] == [];
  }

  /** One line per newline, plus one for a non-empty unterminated tail. */
  lemma {:induction false} LinesCount(src: seq<Byte>)
    ensures |Lines(src)| == Count(src, NEWLINE) + (if src != [] && !EndsInNewline(src) then 1 else 0)
  {
    if NEWLINE !in src {
      CountAbsent(src, NEWLINE);
      assert SplitLn(src).None?;
    } else {
      var line, rest := SplitLn(src).value.0, SplitLn(src).value.1;
      LinesUnfold(src);
      LinesCount(rest);
      CountAppend(line, rest, NEWLINE);
      CountOfLine(line);
      if rest != [] {
        assert src[|src| - 1] == rest[|rest| - 1];
      } else {
        assert src == line;
      }
    }
  }

  lemma {:induction false} ConsAssoc<T>(x: T, a: seq<T>, b: seq<T>)
    ensures [x] + (a + b) == [x] + a + b
  {
  }

  lemma {:induction false} NoNewlineInPrefix(s: seq<Byte>, k: nat)
    requires k <= |s| && NEWLINE !in s
    ensures NEWLINE !in s[..k]
  {
    assert forall j | 0 <= j < k :: s[..k][j] == s[j];
  }

  lemma {:induction false} LinesUnfold(src: seq<Byte>)
    requires NEWLINE in src
    ensures Lines(src) == [SplitLn(src).value.0] + Lines(SplitLn(src).value.1)
  {
  }

  /** Moving the head of `back` to the end of `front` keeps the concatenation. */
  lemma {:induction false} ShiftHead<T>(front: seq<T>, x: T, back: seq<T>)
    ensures front + ([x] + back) == (front + [x]) + back
  {
  }

  /** Two lines split off the front of a line list. */
  lemma {:induction false} LeadingLines(ls: seq<seq<Byte>>, lr: seq<seq<Byte>>, first: seq<Byte>, second: seq<Byte>,
                                        la: seq<seq<Byte>>)
    requires ls == [first] + lr && lr == [second] + la
    ensures |ls| >= 2 && ls[0] == first && ls[1] == second && ls[2..] == la
  {
    assert ls[2..] == la;
  }

  /** Every line holds its only newline at its end; all but the last are terminated. */
  lemma {:induction false} LinesShape(src: seq<Byte>)
    ensures forall k | 0 <= k < |Lines(src)| :: IsLine(Lines(src)[k])
    ensures forall k | 0 <= k < |Lines(src)| - 1 :: EndsInNewline(Lines(src)[k])
    ensures src == [] <==> Lines(src) == []
    ensures Lines(src) != [] ==> (EndsInNewline(Lines(src)[|Lines(src)| - 1]) <==> EndsInNewline(src))
    decreases |src|
  {
    if NEWLINE !in src {
      if src != [] {
        NoNewlineInPrefix(src, |src| - 1);
        assert Lines(src) == [src];
      }
    } else {
      var line, rest := SplitLn(src).value.0, SplitLn(src).value.1;
      LinesShape(rest);
      LinesUnfold(src);
      var ls, lr := Lines(src), Lines(rest);
      forall k | 0 <= k < |ls|
        ensures IsLine(ls[k])
        ensures k < |ls| - 1 ==> EndsInNewline(ls[k])
      {
        if k > 0 {
          assert ls[k] == lr[k - 1];
        }
      }
      if rest != [] {
        assert src[|src| - 1] == rest[|rest| - 1];
        assert ls[|ls| - 1] == lr[|lr| - 1];
      } else {
        assert src == line;
      }
    }
  }

  lemma {:induction false} SplitLnAppend(a: seq<Byte>, b: seq<Byte>)
    requires NEWLINE in a
    ensures SplitLn(a + b) == Some((SplitLn(a).value.0, SplitLn(a).value.1 + b))
  {
    FirstIndexOfAppend(a, b, NEWLINE);
    var i := FirstIndexOf(a, NEWLINE).value;
    assert (a + b)[..i + 1] == a[..i + 1];
    assert (a + b)[i + 1..] == a[i + 1..] + b;
  }

  lemma {:induction false} LinesUnfoldAppend(a: seq<Byte>, b: seq<Byte>)
    requires NEWLINE in a
    ensures Lines(a + b) == [SplitLn(a).value.0] + Lines(SplitLn(a).value.1 + b)
  {
    SplitLnAppend(a, b);
  }

  lemma {:induction false} RestTerminated(a: seq<Byte>)
    requires EndsInNewline(a)
    ensures SplitLn(a).value.1 == [] || EndsInNewline(SplitLn(a).value.1)
    ensures |SplitLn(a).value.1| < |a|
  {
    var rest := SplitLn(a).value.1;
    if rest != [] {
      assert rest[|rest| - 1] == a[|a| - 1];
    }
  }

  /** Splitting a terminated prefix off first does not change the lines. */
  lemma {:induction false} LinesAppend(a: seq<Byte>, b: seq<Byte>)
    requires a == [] || EndsInNewline(a)
    ensures Lines(a + b) == Lines(a) + Lines(b)
    decreases |a|
  {
    if a == [] {
      assert a + b == b;
    } else {
      var line, rest := SplitLn(a).value.0, SplitLn(a).value.1;
      RestTerminated(a);
      LinesAppend(rest, b);
      LinesUnfold(a);
      LinesUnfoldAppend(a, b);
      ConsAssoc(line, Lines(rest), Lines(b));
    }
  }

  lemma {:induction false} FirstIndexOfAppend(a: seq<Byte>, b: seq<Byte>, x: Byte)
    requires x in a
    ensures FirstIndexOf(a + b, x) == FirstIndexOf(a, x)
  {
    var i := FirstIndexOf(a, x).value;
    assert (a + b)[i] == x;
    var r := FirstIndexOf(a + b, x);
    assert forall j | 0 <= j < i :: (a + b)[j] == a[j];
  }

  /** A terminated line followed by anything is split off whole. */
  lemma {:induction false} SplitLnOfLine(line: seq<Byte>, tail: seq<Byte>)
    requires IsLine(line) && EndsInNewline(line)
    ensures SplitLn(line + tail) == Some((line, tail))
  {
    var n := |line| - 1;
    assert forall j | 0 <= j < n :: line[j] == line[..n][j];
    assert FirstIndexOf(line, NEWLINE) == Some(n);
    FirstIndexOfAppend(line, tail, NEWLINE);
    assert (line + tail)[..n + 1] == line;
    assert (line + tail)[n + 1..] == tail;
  }

  /** A terminated line followed by anything is yielded whole, first. */
  lemma {:induction false} LinesOfLine(line: seq<Byte>, rest: seq<Byte>)
    requires IsLine(line) && EndsInNewline(line)
    ensures Lines(line) == [line]
    ensures Lines(line + rest) == [line] + Lines(rest)
  {
    var i := |line| - 1;
    assert forall j | 0 <= j < i :: line[j] == line[..i][j];
    assert FirstIndexOf(line, NEWLINE) == Some(i);
    assert line[..i + 1] == line;
    assert Lines(line) == [line] + Lines([]);
    LinesAppend(line, rest);
  }

  /** The lines still to come out of an iterator whose state is `state`. */
  function Pending(state: Option<seq<Byte>>): seq<seq<Byte>>
  {
    match state
    case None => []
    case Some(s) => Lines(s)
  }

  /** `NewlineIter`: the remaining input, or `None` once the iterator is fused. */
  class NewlineIter {
    var rest: Option<seq<Byte>>

    constructor (src: seq<Byte>)
      ensures rest == Some(src)
      ensures Remaining() == Lines(src)
    {
      rest := Some(src);
    }

    function Remaining(): seq<seq<Byte>>
      reads this
    {
      Pending(rest)
    }

    /** `next_const`. */
    method Next() returns (line: Option<seq<Byte>>)
      modifies this
      ensures line.None? <==> old(Remaining()) == []
      ensures line.Some? ==> line.value == old(Remaining())[0] && Remaining() == old(Remaining())[1..]
      ensures line.None? ==> rest.None?
      ensures old(rest).None? ==> line.None? && rest.None?
    {
      match rest {
        case None =>
          line := None;
        case Some(src) =>
          match SplitLn(src) {
            case None =>
              rest := None;
              line := if src == [] then None else Some(src);
            case Some(parts) =>
              rest := Some(parts.1);
              line := Some(parts.0);
          }
      }
    }
  }

  /** `NewlineIter::new(src).count()`. */
  method CountLines(src: seq<Byte>) returns (n: nat)
    ensures n == |Lines(src)|
  {
    var iter := new NewlineIter(src);
    n := 0;
    while true
      invariant n + |iter.Remaining()| == |Lines(src)|
      decreases |iter.Remaining()|
    {
      var line := iter.Next();
      if line.None? {
        break;
      }
      n := n + 1;
    }
  }

  // ---------------------------------------------------------------------
  // TabIter
  // ---------------------------------------------------------------------

  /** The code-editor tab separator `-->8`. */
  const TAB_SEQUENCE: seq<Byte> := Ascii("-->8")

  /** What `into_cart_source` writes between two tabs: `-->8\n`. */
  const TAB_SEPARATOR_LINE: seq<Byte> := TAB_SEQUENCE + [NEWLINE]

  /**
   * One step of `TabIter` on `src` does not panic: a separator found must
   * have one more byte after it, since the iterator skips five bytes.
   */
  predicate TabStepSafe(src: seq<Byte>)
  {
    match FindSequence(src, TAB_SEQUENCE)
    case None => true
    case Some(i) => i + |TAB_SEPARATOR_LINE| <= |src|
  }

  /** Every step of `TabIter` on `src` is safe. */
  predicate TabSplittable(src: seq<Byte>)
    decreases |src|
  {
    match FindSequence(src, TAB_SEQUENCE)
    case None => true
    case Some(i) =>
      i + |TAB_SEPARATOR_LINE| <= |src| && TabSplittable(src[i + |TAB_SEPARATOR_LINE|..])
  }

  /** Every span `TabIter` yields over `src`, in order. */
  function TabSpans(src: seq<Byte>): (r: seq<seq<Byte>>)
    requires TabSplittable(src)
    ensures |r| >= 1
    decreases |src|
  {
    match FindSequence(src, TAB_SEQUENCE)
    case None => [src]
    case Some(i) => [src[..i]] + TabSpans(src[i + |TAB_SEPARATOR_LINE|..])
  }

  /** `TabIter`: the remaining input, or `None` once exhausted. */
  class TabIter {
    var rest: Option<seq<Byte>>

    constructor (src: seq<Byte>)
      ensures rest == Some(src)
    {
      rest := Some(src);
    }

    /** No step from here on panics. */
    predicate Valid()
      reads this
    {
      rest.Some? ==> TabSplittable(rest.value)
    }

    function Remaining(): seq<seq<Byte>>
      reads this
      requires Valid()
    {
      match rest
      case None => []
      case Some(s) => TabSpans(s)
    }

    /** `Iterator::next`; panics (here: requires) when a separator ends the input. */
    method Next() returns (span: Option<seq<Byte>>)
      requires rest.Some? ==> TabStepSafe(rest.value)
      modifies this
      ensures old(rest).None? ==> span.None? && rest.None?
      ensures old(rest).Some? ==> span.Some?
      ensures old(rest).Some? && FindSequence(old(rest).value, TAB_SEQUENCE).None? ==>
                span.value == old(rest).value && rest.None?
      ensures old(rest).Some? && FindSequence(old(rest).value, TAB_SEQUENCE).Some? ==>
                var i := FindSequence(old(rest).value, TAB_SEQUENCE).value;
                span.value == old(rest).value[..i] && rest == Some(old(rest).value[i + |TAB_SEPARATOR_LINE|..])
      ensures old(Valid()) ==> Valid()
      ensures old(Valid()) ==> (span.None? <==> old(Remaining()) == [])
      ensures old(Valid()) && span.Some? ==>
                span.value == old(Remaining())[0] && Remaining() == old(Remaining())[1..]
    {
      match rest {
        case None =>
          span := None;
        case Some(src) =>
          match FindSequence(src, TAB_SEQUENCE) {
            case None =>
              rest := None;
              span := Some(src);
            case Some(i) =>
              rest := Some(src[i + |TAB_SEPARATOR_LINE|..]);
              span := Some(src[..i]);
          }
      }
    }
  }

  /** The spans written back with `-->8\n` between them. */
  function JoinTabs(spans: seq<seq<Byte>>): seq<Byte>
    requires |spans| >= 1
  {
    if |spans| == 1 then spans[0] else spans[0] + TAB_SEPARATOR_LINE + JoinTabs(spans[1..])
  }

  /** Every `-->8` in `s` is followed by a newline. */
  predicate SeparatorsEndLines(s: seq<Byte>)
  {
    forall j | 0 <= j < |s| && OccursAt(s, TAB_SEQUENCE, j) :: j + |TAB_SEQUENCE| < |s| && s[j + |TAB_SEQUENCE|] == NEWLINE
  }

  lemma {:induction false} OccursAtShift(s: seq<Byte>, k: nat, pattern: seq<Byte>, j: int)
    requires k <= |s|
    requires OccursAt(s[k..], pattern, j)
    ensures OccursAt(s, pattern, k + j)
  {
    assert s[k..][j..j + |pattern|] == s[k + j..k + j + |pattern|];
  }

  /** `TabIter` never panics on such input, and joining its spans restores it. */
  lemma {:induction false} TabSpansJoin(s: seq<Byte>)
    requires SeparatorsEndLines(s)
    ensures TabSplittable(s)
    ensures JoinTabs(TabSpans(s)) == s
    decreases |s|
  {
    match FindSequence(s, TAB_SEQUENCE)
    case None =>
    case Some(i) =>
      var k := i + |TAB_SEPARATOR_LINE|;
      assert s[i..i + |TAB_SEQUENCE|] == TAB_SEQUENCE;
      var rest := s[k..];
      assert SeparatorsEndLines(rest) by {
        forall j | 0 <= j < |rest| && OccursAt(rest, TAB_SEQUENCE, j)
          ensures j + |TAB_SEQUENCE| < |rest| && rest[j + |TAB_SEQUENCE|] == NEWLINE
        {
          OccursAtShift(s, k, TAB_SEQUENCE, j);
        }
      }
      TabSpansJoin(rest);
      assert s[i..k] == TAB_SEPARATOR_LINE;
      assert s == s[..i] + s[i..k] + rest;
  }

  /**
   * A chunk that holds no `-->8` and is empty or ends in a newline: the
   * separator after it is found right where it starts.
   */
  lemma {:induction false} FindSeparatorAfter(d: seq<Byte>, tail: seq<Byte>)
    requires !Contains(d, TAB_SEQUENCE)
    requires d == [] || EndsInNewline(d)
    ensures FindSequence(d + TAB_SEPARATOR_LINE + tail, TAB_SEQUENCE) == Some(|d|)
  {
    var s := d + TAB_SEPARATOR_LINE + tail;
    assert s[|d|..|d| + |TAB_SEQUENCE|] == TAB_SEQUENCE;
    assert OccursAt(s, TAB_SEQUENCE, |d|);
    forall j | 0 <= j < |d|
      ensures !OccursAt(s, TAB_SEQUENCE, j)
    {
      if j + |TAB_SEQUENCE| <= |d| {
        assert s[j..j + |TAB_SEQUENCE|] == d[j..j + |TAB_SEQUENCE|];
        assert !OccursAt(d, TAB_SEQUENCE, j);
      } else {
        var w := s[j..j + |TAB_SEQUENCE|];
        assert w[|d| - 1 - j] == d[|d| - 1] == NEWLINE;
        assert NEWLINE !in TAB_SEQUENCE;
      }
    }
    var r := FindSequence(s, TAB_SEQUENCE);
    assert r.Some?;
  }

  /** A chunk without `-->8` is a single span. */
  lemma {:induction false} TabSpansOfPlain(d: seq<Byte>)
    requires !Contains(d, TAB_SEQUENCE)
    ensures TabSplittable(d) && TabSpans(d) == [d]
  {
  }

  /**
   * The inverse direction: joining chunks that hold no `-->8`, each but the
   * last empty or newline-terminated, and splitting again with `TabIter`
   * gives the chunks back.
   */
  lemma {:induction false} TabSpansOfJoin(ds: seq<seq<Byte>>)
    requires |ds| >= 1
    requires forall k | 0 <= k < |ds| :: !Contains(ds[k], TAB_SEQUENCE)
    requires forall k | 0 <= k < |ds| - 1 :: ds[k] == [] || EndsInNewline(ds[k])
    ensures TabSplittable(JoinTabs(ds))
    ensures TabSpans(JoinTabs(ds)) == ds
  {
    if |ds| == 1 {
      TabSpansOfPlain(ds[0]);
    } else {
      var tail := JoinTabs(ds[1..]);
      TabSpansOfJoin(ds[1..]);
      FindSeparatorAfter(ds[0], tail);
      var s := ds[0] + TAB_SEPARATOR_LINE + tail;
      assert s[|ds[0]| + |TAB_SEPARATOR_LINE|..] == tail;
      assert s[..|ds[0]|] == ds[0];
      assert ds == [ds[0]] + ds[1..];
    }
  }
}
