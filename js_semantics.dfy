/**
 * The few JavaScript built-ins the decoder relies on, written out over
 * mathematical integers and characters: the bitwise operators `&`, `|` and
 * `<<` on non-negative operands, the truncating remainder `%`, and
 * `String.prototype.trim`.
 */
module JsSemantics {

  /** One element of a `Uint8Array`. */
  type byte = x: int | 0 <= x < 256

  function Pow2(i: nat): (r: nat)
    ensures r >= 1
  {
    if i == 0 then 1 else 2 * Pow2(i - 1)
  }

  /** Bit `i` of `x` (bit 0 is the least significant): the reference the bitwise operators are checked against. */
  predicate BitSet(x: nat, i: nat)
  {
    if i == 0 then x % 2 == 1 else BitSet(x / 2, i - 1)
  }

  /** `x & y` for operands in 0 .. 2^31 - 1, digit by binary digit. */
  function BitAnd(x: nat, y: nat): (r: nat)
    ensures r <= x && r <= y
  {
    if x == 0 || y == 0 then 0
    else 2 * BitAnd(x / 2, y / 2) + (if x % 2 == 1 && y % 2 == 1 then 1 else 0)
  }

  /** `x | y` for operands in 0 .. 2^31 - 1, digit by binary digit. */
  function BitOr(x: nat, y: nat): (r: nat)
    ensures x <= r <= x + y
    decreases x + y
  {
    if x == 0 then y
    else if y == 0 then x
    else 2 * BitOr(x / 2, y / 2) + (if x % 2 == 1 || y % 2 == 1 then 1 else 0)
  }

  /** `x << n`, for results that stay below 2^31 (no 32-bit wrap-around arises in the decoder). */
  function ShiftLeft(x: nat, n: nat): (r: nat)
    ensures r >= x
    ensures r == 0 <==> x == 0
  {
    x * Pow2(n)
  }

  /** `a % b` as JavaScript computes it for integers: the remainder takes the sign of the dividend. */
  function JsRem(a: int, b: int): (r: int)
    requires b > 0
    ensures -b < r < b
    ensures a >= 0 ==> r >= 0
    ensures a < 0 ==> r <= 0
    ensures a >= 0 ==> r == a % b
  {
    if a >= 0 then a % b else -((-a) % b)
  }

  /** Negating the dividend negates the remainder, so a negative dividend gives `-((-a) % b)`. */
  lemma JsRemOdd(a: int, b: int)
    requires b > 0
    ensures JsRem(-a, b) == -JsRem(a, b)
  {
  }

  lemma {:induction false} BitSetOfZero(i: nat)
    ensures !BitSet(0, i)
  {
    if i > 0 {
      BitSetOfZero(i - 1);
    }
  }

  /** Masking with a single bit `1 << i` keeps exactly bit `i`. */
  lemma {:induction false} BitAndSingleBit(x: nat, i: nat)
    ensures BitAnd(x, ShiftLeft(1, i)) == if BitSet(x, i) then Pow2(i) else 0
  {
    if i == 0 {
      assert ShiftLeft(1, 0) == 1;
    } else if x == 0 {
      BitSetOfZero(i);
    } else {
      var p := Pow2(i - 1);
      assert ShiftLeft(1, i) == 2 * p;
      assert (2 * p) / 2 == p && (2 * p) % 2 == 0;
      assert ShiftLeft(1, i - 1) == p;
      BitAndSingleBit(x / 2, i - 1);
    }
  }

  /** The test `(x & (1 << i)) !== 0` reads bit `i`. */
  lemma BitTest(x: nat, i: nat)
    ensures (BitAnd(x, ShiftLeft(1, i)) != 0) == BitSet(x, i)
  {
    BitAndSingleBit(x, i);
  }

  /** When the low part fits below the shift, `lo | (hi << n)` is the sum `lo + hi * 2^n`. */
  lemma {:induction false} BitOrOfShifted(lo: nat, hi: nat, n: nat)
    requires lo < Pow2(n)
    ensures BitOr(lo, ShiftLeft(hi, n)) == lo + hi * Pow2(n)
  {
    if n > 0 && lo != 0 && hi != 0 {
      var p := Pow2(n - 1);
      calc {
        ShiftLeft(hi, n);
        hi * (2 * p);
        2 * (hi * p);
      }
      assert (2 * (hi * p)) / 2 == hi * p && (2 * (hi * p)) % 2 == 0;
      assert ShiftLeft(hi, n - 1) == hi * p;
      BitOrOfShifted(lo / 2, hi, n - 1);
    }
  }

  /** Bit `i` of `x & y` is set exactly when bit `i` is set in both operands. */
  lemma {:induction false} BitSetOfAnd(x: nat, y: nat, i: nat)
    ensures BitSet(BitAnd(x, y), i) == (BitSet(x, i) && BitSet(y, i))
  {
    if x == 0 || y == 0 {
      BitSetOfZero(i);
    } else if i > 0 {
      var k := BitAnd(x / 2, y / 2);
      assert BitAnd(x, y) / 2 == k;
      BitSetOfAnd(x / 2, y / 2, i - 1);
    }
  }

  /** Bit `i` of `x | y` is set exactly when bit `i` is set in either operand. */
  lemma {:induction false} BitSetOfOr(x: nat, y: nat, i: nat)
    ensures BitSet(BitOr(x, y), i) == (BitSet(x, i) || BitSet(y, i))
    decreases x + y
  {
    if x == 0 {
      BitSetOfZero(i);
    } else if y == 0 {
      BitSetOfZero(i);
    } else if i > 0 {
      var k := BitOr(x / 2, y / 2);
      assert BitOr(x, y) / 2 == k;
      BitSetOfOr(x / 2, y / 2, i - 1);
    }
  }

  /** Two values that agree on their low six bits (`x & 0x3F`) agree on each of the bits 0 to 5. */
  lemma BitSetLowSix(x: nat, y: nat, i: nat)
    requires i < 6 && BitAnd(x, 0x3F) == BitAnd(y, 0x3F)
    ensures BitSet(x, i) == BitSet(y, i)
  {
    assert BitSet(0x3F, i) by {
      assert i == 0 || i == 1 || i == 2 || i == 3 || i == 4 || i == 5;
    }
    BitSetOfAnd(x, 0x3F, i);
    BitSetOfAnd(y, 0x3F, i);
  }

  /** The characters `String.prototype.trim` removes: ECMAScript WhiteSpace and LineTerminator. */
  predicate IsJsWhitespace(c: char)
  {
    c == '\t' || c == '\n' || c == '\U{0B}' || c == '\U{0C}' || c == '\r' || c == ' ' ||
    c == '\U{A0}' || c == '\U{1680}' || ('\U{2000}' <= c <= '\U{200A}') ||
    c == '\U{2028}' || c == '\U{2029}' || c == '\U{202F}' || c == '\U{205F}' ||
    c == '\U{3000}' || c == '\U{FEFF}'
  }

  predicate AllWhitespace(s: string)
  {
    forall k :: 0 <= k < |s| ==> IsJsWhitespace(s[k])
  }

  /** `s` after dropping its leading whitespace. */
  function TrimStart(s: string): (r: string)
    ensures |r| <= |s| && r == s[|s| - |r|..]
    ensures AllWhitespace(s[..|s| - |r|])
    ensures r == [] || !IsJsWhitespace(r[0])
  {
    if s != [] && IsJsWhitespace(s[0]) then
      var r := TrimStart(s[1..]);
      assert s[..|s| - |r|] == [s[0]] + s[1..][..|s| - 1 - |r|];
      r
    else s
  }

  /** `s` after dropping its trailing whitespace. */
  function TrimEnd(s: string): (r: string)
    ensures |r| <= |s| && r == s[..|r|]
    ensures AllWhitespace(s[|r|..])
    ensures r == [] || !IsJsWhitespace(r[|r| - 1])
  {
    if s != [] && IsJsWhitespace(s[|s| - 1]) then
      var r := TrimEnd(s[..|s| - 1]);
      assert s[|r|..] == s[..|s| - 1][|r|..] + [s[|s| - 1]];
      r
    else s
  }

  /** `String.prototype.trim`: the slice `s[i..j]` left when all leading and trailing whitespace is removed. */
  function Trim(s: string): (r: string)
    ensures r == [] || (!IsJsWhitespace(r[0]) && !IsJsWhitespace(r[|r| - 1]))
  {
    TrimEnd(TrimStart(s))
  }

  /** What `Trim` drops is whitespace and what it keeps is a contiguous slice of `s`. */
  lemma TrimIsSlice(s: string)
    ensures var r := Trim(s);
      exists i :: 0 <= i <= i + |r| <= |s| && r == s[i..i + |r|] &&
        AllWhitespace(s[..i]) && AllWhitespace(s[i + |r|..])
  {
    var t := TrimStart(s);
    var r := TrimEnd(t);
    var i := |s| - |t|;
    assert t == s[i..];
    assert r == t[..|r|];
    assert r == s[i..i + |r|];
    assert s[i + |r|..] == t[|r|..];
    assert AllWhitespace(s[..i]) && AllWhitespace(s[i + |r|..]);
  }

  /** A string with neither leading nor trailing whitespace is left unchanged by `Trim`. */
  lemma TrimOfTrimmed(s: string)
    requires s == [] || (!IsJsWhitespace(s[0]) && !IsJsWhitespace(s[|s| - 1]))
    ensures Trim(s) == s
  {
  }

  lemma TrimIdempotent(s: string)
    ensures Trim(Trim(s)) == Trim(s)
  {
    TrimOfTrimmed(Trim(s));
  }

  /** A string of whitespace only trims to the empty string. */
  lemma {:induction false} TrimOfWhitespace(s: string)
    requires AllWhitespace(s)
    ensures Trim(s) == []
  {
    if s != [] {
      TrimOfWhitespace(s[1..]);
    }
  }
}
