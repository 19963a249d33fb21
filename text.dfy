/**
 * The pieces of Rust's `core::str` that the header code leans on, stated on
 * bytes: UTF-8 well-formedness (`from_utf8`), `trim_end` (Unicode White_Space
 * at the end of a string) and unsigned `from_str` (decimal digits with an
 * optional leading `+`, overflow checked digit by digit).
 */
module Text {
  import opened Wrappers
  import opened Bytes

  // ---------------------------------------------------------------------
  // UTF-8 (table 3-7 of the Unicode Standard, "Well-Formed UTF-8 Byte Sequences")
  // ---------------------------------------------------------------------

  predicate InRange(b: Byte, lo: int, hi: int)
  {
    lo <= b <= hi
  }

  /** The length of the well-formed UTF-8 sequence `s` starts with, or 0 if there is none. */
  function CharLen(s: seq<Byte>): (n: nat)
    ensures n <= |s| && n <= 4
    ensures s != [] && s[0] < 0x80 ==> n == 1
  {
    if s == [] then 0
    else if s[0] < 0x80 then 1
    else if InRange(s[0], 0xC2, 0xDF) then
      (if |s| >= 2 && InRange(s[1], 0x80, 0xBF) then 2 else 0)
    else if InRange(s[0], 0xE0, 0xEF) then
      var lo := if s[0] == 0xE0 then 0xA0 else 0x80;
      var hi := if s[0] == 0xED then 0x9F else 0xBF;
      (if |s| >= 3 && InRange(s[1], lo, hi) && InRange(s[2], 0x80, 0xBF) then 3 else 0)
    else if InRange(s[0], 0xF0, 0xF4) then
      var lo := if s[0] == 0xF0 then 0x90 else 0x80;
      var hi := if s[0] == 0xF4 then 0x8F else 0xBF;
      (if |s| >= 4 && InRange(s[1], lo, hi) && InRange(s[2], 0x80, 0xBF) && InRange(s[3], 0x80, 0xBF)
       then 4 else 0)
    else 0
  }

  /** `core::str::from_utf8(s).is_ok()`. */
  predicate ValidUtf8(s: seq<Byte>)
    decreases |s|
  {
    s == [] || (CharLen(s) > 0 && ValidUtf8(s[CharLen(s)..]))
  }

  /** Bytes below 0x80 are each a character of their own. */
  lemma {:induction false} AsciiIsValidUtf8(s: seq<Byte>)
    requires forall i | 0 <= i < |s| :: s[i] < 0x80
    ensures ValidUtf8(s)
    decreases |s|
  {
    if s != [] {
      AsciiIsValidUtf8(s[1..]);
    }
  }

  /** Well-formed text stays well-formed after appending well-formed text. */
  lemma {:induction false} ValidUtf8Append(a: seq<Byte>, b: seq<Byte>)
    requires ValidUtf8(a) && ValidUtf8(b)
    ensures ValidUtf8(a + b)
    decreases |a|
  {
    if a == [] {
      assert a + b == b;
    } else {
      var n := CharLen(a);
      assert (a + b)[..n] == a[..n];
      CharLenPrefix(a, b);
      assert (a + b)[n..] == a[n..] + b;
      ValidUtf8Append(a[n..], b);
    }
  }

  lemma {:induction false} CharLenPrefix(a: seq<Byte>, b: seq<Byte>)
    requires CharLen(a) > 0
    ensures CharLen(a + b) == CharLen(a)
  {
    assert forall i | 0 <= i < |a| :: (a + b)[i] == a[i];
  }

  // ---------------------------------------------------------------------
  // trim_end
  // ---------------------------------------------------------------------

  /**
   * The length of the UTF-8 encoding of a White_Space character that ends
   * `s`, or 0. White_Space is U+0009..U+000D, U+0020, U+0085, U+00A0,
   * U+1680, U+2000..U+200A, U+2028, U+2029, U+202F, U+205F and U+3000.
   */
  function TrailingWhitespaceLen(s: seq<Byte>): (n: nat)
    ensures n <= |s| && n <= 3
  {
    var k := |s|;
    if k >= 1 && (InRange(s[k - 1], 0x09, 0x0D) || s[k - 1] == 0x20) then 1
    else if k >= 2 && s[k - 2] == 0xC2 && (s[k - 1] == 0x85 || s[k - 1] == 0xA0) then 2
    else if k >= 3 && s[k - 3] == 0xE1 && s[k - 2] == 0x9A && s[k - 1] == 0x80 then 3
    else if k >= 3 && s[k - 3] == 0xE2 && s[k - 2] == 0x80
            && (InRange(s[k - 1], 0x80, 0x8A) || s[k - 1] == 0xA8 || s[k - 1] == 0xA9 || s[k - 1] == 0xAF) then 3
    else if k >= 3 && s[k - 3] == 0xE2 && s[k - 2] == 0x81 && s[k - 1] == 0x9F then 3
    else if k >= 3 && s[k - 3] == 0xE3 && s[k - 2] == 0x80 && s[k - 1] == 0x80 then 3
    else 0
  }

  /** `t` is a run of White_Space characters, peeled off from the end. */
  predicate AllWhitespace(t: seq<Byte>)
    decreases |t|
  {
    t == [] || (TrailingWhitespaceLen(t) > 0 && AllWhitespace(t[..|t| - TrailingWhitespaceLen(t)]))
  }

  /**
   * The White_Space character ending a string is the one ending any
   * suffix long enough to hold it; so a suffix that ends in White_Space
   * ends in the same character as the whole string.
   */
  lemma TrailingWhitespaceSuffix(s: seq<Byte>, j: nat)
    requires j <= |s|
    ensures TrailingWhitespaceLen(s[j..]) > 0 ==> TrailingWhitespaceLen(s) == TrailingWhitespaceLen(s[j..])
    ensures TrailingWhitespaceLen(s) <= |s| - j ==> TrailingWhitespaceLen(s[j..]) == TrailingWhitespaceLen(s)
  {
    var t := s[j..];
    var k := |s|;
    if |t| >= 1 { assert t[|t| - 1] == s[k - 1]; }
    if |t| >= 2 { assert t[|t| - 2] == s[k - 2]; }
    if |t| >= 3 { assert t[|t| - 3] == s[k - 3]; }
  }

  /**
   * `str::trim_end`: drop White_Space characters from the end. What is
   * kept is a prefix that no longer ends in White_Space, and what is
   * dropped is White_Space only.
   */
  function TrimEnd(s: seq<Byte>): (r: seq<Byte>)
    ensures r <= s
    ensures TrailingWhitespaceLen(r) == 0
    ensures AllWhitespace(s[|r|..])
    decreases |s|
  {
    var n := TrailingWhitespaceLen(s);
    if n == 0 then s
    else
      var r := TrimEnd(s[..|s| - n]);
      var t := s[|r|..];
      TrailingWhitespaceSuffix(s, |r|);
      assert t[..|t| - n] == s[..|s| - n][|r|..];
      r
  }

  /** One step of `TrimEnd`: a White_Space character at the end is dropped. */
  lemma TrimEndStep(s: seq<Byte>, rest: seq<Byte>)
    requires TrailingWhitespaceLen(s) > 0 && rest == s[..|s| - TrailingWhitespaceLen(s)]
    ensures TrimEnd(s) == TrimEnd(rest)
  {
  }

  /**
   * Trimming text followed by White_Space drops the last White_Space
   * character first, whatever comes before the run.
   */
  lemma TrimEndAppendStep(p: seq<Byte>, w: seq<Byte>)
    requires w != [] && AllWhitespace(w)
    ensures AllWhitespace(w[..|w| - TrailingWhitespaceLen(w)])
    ensures TrimEnd(p + w) == TrimEnd(p + w[..|w| - TrailingWhitespaceLen(w)])
  {
    var s := p + w;
    var n := TrailingWhitespaceLen(w);
    assert TrailingWhitespaceLen(s) == n by {
      assert s[|p|..] == w;
      TrailingWhitespaceSuffix(s, |p|);
    }
    assert s[..|s| - n] == p + w[..|w| - n];
    TrimEndStep(s, p + w[..|w| - n]);
  }

  /**
   * Trimming text that does not end in White_Space, followed by any run
   * of White_Space, gives back exactly that text.
   */
  lemma {:induction false} TrimEndOfWhitespace(p: seq<Byte>, w: seq<Byte>)
    requires TrailingWhitespaceLen(p) == 0 && AllWhitespace(w)
    ensures TrimEnd(p + w) == p
    decreases |w|
  {
    if w == [] {
      assert p + w == p;
    } else {
      TrimEndAppendStep(p, w);
      TrimEndOfWhitespace(p, w[..|w| - TrailingWhitespaceLen(w)]);
    }
  }

  // ---------------------------------------------------------------------
  // Unsigned from_str
  // ---------------------------------------------------------------------

  /** `core::num::IntErrorKind`, the kinds an unsigned parse can return. */
  datatype IntErrorKind = Empty | InvalidDigit | PosOverflow

  const PLUS: Byte := 0x2B
  const MINUS: Byte := 0x2D

  const USIZE_MAX: nat := 0xFFFF_FFFF_FFFF_FFFF
  const U32_MAX: nat := 0xFFFF_FFFF

  predicate IsDigit(b: Byte)
  {
    0x30 <= b <= 0x39
  }

  predicate AllDigits(s: seq<Byte>)
  {
    forall i | 0 <= i < |s| :: IsDigit(s[i])
  }

  /** The decimal value of a digit string, read most significant digit first. */
  function DecimalValue(ds: seq<Byte>): nat
    requires AllDigits(ds)
  {
    if ds == [] then 0 else DecimalValue(ds[..|ds| - 1]) * 10 + (ds[|ds| - 1] - 0x30)
  }

  /** The digits `from_str` reads: everything after an optional leading `+`. */
  function DigitsOf(s: seq<Byte>): seq<Byte>
  {
    if s != [] && s[0] == PLUS then s[1..] else s
  }

  /**
   * The digit loop: per byte, a non-digit is `InvalidDigit`, and a value
   * past `max` after `acc * 10 + d` is `PosOverflow`.
   */
  function Accumulate(ds: seq<Byte>, acc: nat, max: nat): (r: Result<nat, IntErrorKind>)
    ensures r != Err(Empty)
    decreases |ds|
  {
    if ds == [] then Ok(acc)
    else if !IsDigit(ds[0]) then Err(InvalidDigit)
    else if acc * 10 + (ds[0] - 0x30) > max then Err(PosOverflow)
    else Accumulate(ds[1..], acc * 10 + (ds[0] - 0x30), max)
  }

  /** The value of `prefix` followed by `ds`, given the value `acc` of `prefix`. */
  lemma {:induction false} AccumulateValue(prefix: seq<Byte>, ds: seq<Byte>, acc: nat, max: nat)
    requires AllDigits(prefix) && acc == DecimalValue(prefix) && acc <= max
    ensures Accumulate(ds, acc, max).Ok? <==> AllDigits(prefix + ds) && DecimalValue(prefix + ds) <= max
    ensures Accumulate(ds, acc, max).Ok? ==> Accumulate(ds, acc, max).value == DecimalValue(prefix + ds)
    decreases |ds|
  {
    if ds == [] {
      assert prefix + ds == prefix;
    } else {
      var p := prefix + [ds[0]];
      assert prefix + ds == p + ds[1..];
      if !IsDigit(ds[0]) {
        assert (prefix + ds)[|prefix|] == ds[0];
      } else {
        assert p[..|p| - 1] == prefix;
        var next := acc * 10 + (ds[0] - 0x30);
        assert DecimalValue(p) == next;
        if next > max {
          if AllDigits(p + ds[1..]) {
            DecimalValueGrows(p, ds[1..]);
          }
        } else {
          AccumulateValue(p, ds[1..], next, max);
        }
      }
    }
  }

  /** Appending digits never makes the value smaller. */
  lemma {:induction false} DecimalValueGrows(p: seq<Byte>, ds: seq<Byte>)
    requires AllDigits(p + ds)
    ensures AllDigits(p) && DecimalValue(p) <= DecimalValue(p + ds)
    decreases |ds|
  {
    assert forall i | 0 <= i < |p| :: p[i] == (p + ds)[i];
    if ds != [] {
      var q := p + ds[..|ds| - 1];
      assert p + ds == q + [ds[|ds| - 1]];
      assert (p + ds)[..|p + ds| - 1] == q;
      assert forall i | 0 <= i < |q| :: q[i] == (p + ds)[i];
      DecimalValueGrows(p, ds[..|ds| - 1]);
      assert DecimalValue(p + ds) == DecimalValue(q) * 10 + ((p + ds)[|p + ds| - 1] - 0x30);
    } else {
      assert p + ds == p;
    }
  }

  /**
   * Unsigned `from_str` (the integer types' `FromStr`, with the maximum of
   * the target type as `max`): empty input is `Empty`, a lone sign is
   * `InvalidDigit`, and otherwise the digit loop decides.
   */
  function ParseUnsigned(s: seq<Byte>, max: nat): (r: Result<nat, IntErrorKind>)
    ensures r == Err(Empty) <==> s == []
    ensures r.Ok? <==> s != [] && DigitsOf(s) != [] && AllDigits(DigitsOf(s)) && DecimalValue(DigitsOf(s)) <= max
    ensures r.Ok? ==> r.value == DecimalValue(DigitsOf(s))
  {
    if s == [] then Err(Empty)
    else if s == [PLUS] || s == [MINUS] then Err(InvalidDigit)
    else
      var ds := DigitsOf(s);
      AccumulateValue([], ds, 0, max);
      assert [] + ds == ds;
      Accumulate(ds, 0, max)
  }
}
