/** The bounded formatter of libs/printk.c and the shell's atoi: numerals, and output
    as the longest prefix that fits. */
module Printk {

  const TWO31 := 0x8000_0000
  const TWO32 := 0x1_0000_0000

  type Int32 = v: int | -0x8000_0000 <= v < 0x8000_0000

  /** The bits of an int read as an unsigned int. */
  function Unsigned(v: Int32): nat { v % TWO32 }

  /** Conversion to int. */
  function Wrap32(v: int): Int32 { (v + TWO31) % TWO32 - TWO31 }

  /** -value; the most negative int stays what it is. */
  function Negate(v: Int32): Int32 { Wrap32(0 - v as int) }

  // ---------------------------------------------------------------- numerals

  function Digit(d: nat, uppercase: bool): char
    requires d < 16
  {
    if d < 10 then '0' + d as char else (if uppercase then 'A' else 'a') + (d - 10) as char
  }

  function DigitValue(c: char): int {
    if '0' <= c <= '9' then c as int - '0' as int
    else if 'a' <= c <= 'f' then c as int - 'a' as int + 10
    else if 'A' <= c <= 'F' then c as int - 'A' as int + 10
    else -1
  }

  /** The number a numeral denotes. */
  function Denote(s: string, radix: nat): int {
    if s == "" then 0 else Denote(s[..|s| - 1], radix) * radix + DigitValue(s[|s| - 1])
  }

  /** The digits, lowest first, as the loop of mini_itoa writes them. */
  function LowFirst(u: nat, radix: nat, uppercase: bool): string
    requires 2 <= radix <= 16
    decreases u
  {
    [Digit(u % radix, uppercase)] + if u / radix > 0 then LowFirst(u / radix, radix, uppercase) else ""
  }

  function Zeros(n: int): string
    decreases n
  {
    if n <= 0 then "" else Zeros(n - 1) + "0"
  }

  function Reverse(s: string): (r: string)
    ensures |r| == |s| && forall k :: 0 <= k < |s| ==> r[k] == s[|s| - 1 - k]
  {
    if s == "" then "" else Reverse(s[1..]) + [s[0]]
  }

  predicate IsNegative(v: Int32, unsig: bool) {
    v < 0 && !unsig
  }

  /** What the digits are of: the bits of the value, or of its wrapping negation. */
  function Magnitude(v: Int32, unsig: bool): nat {
    if IsNegative(v, unsig) then Unsigned(Negate(v)) else Unsigned(v)
  }

  /** The text of a number before it is reversed. */
  function Backwards(v: Int32, radix: nat, uppercase: bool, unsig: bool, zeroPad: nat): string
    requires 2 <= radix <= 16
  {
    var digits := LowFirst(Magnitude(v, unsig), radix, uppercase);
    digits + Zeros(zeroPad - |digits|) + if IsNegative(v, unsig) then "-" else ""
  }

  function Itoa(v: Int32, radix: nat, uppercase: bool, unsig: bool, zeroPad: nat): string
    requires 2 <= radix <= 16
  {
    Reverse(Backwards(v, radix, uppercase, unsig, zeroPad))
  }

  // ---------------------------------------------------------------- what a numeral is

  /** A digit below the radix; letters are of one case. */
  predicate IsDigit(c: char, radix: nat, uppercase: bool) {
    || ('0' <= c <= '9' && c as int - '0' as int < radix)
    || (!uppercase && 'a' <= c <= 'f' && c as int - 'a' as int + 10 < radix)
    || (uppercase && 'A' <= c <= 'F' && c as int - 'A' as int + 10 < radix)
  }

  predicate AllDigits(s: string, radix: nat, uppercase: bool) {
    forall k :: 0 <= k < |s| ==> IsDigit(s[k], radix, uppercase)
  }

  /** The digits of a number u: at least one and at least `width`, and no zero in front beyond that. */
  predicate AreDigitsOf(digits: string, u: nat, radix: nat, uppercase: bool, width: nat) {
    && AllDigits(digits, radix, uppercase) && Denote(digits, radix) == u
    && |digits| >= width && |digits| >= 1 && (|digits| > width && |digits| > 1 ==> digits[0] != '0')
  }

  /** A minus sign if the value is negative, and the digits of its absolute value; the sign adds to the width. */
  predicate IsNumeral(text: string, value: int, radix: nat, uppercase: bool, width: nat) {
    if value < 0 then text != "" && text[0] == '-' && AreDigitsOf(text[1..], -value, radix, uppercase, width)
    else AreDigitsOf(text, value, radix, uppercase, width)
  }

  lemma DigitInverse(d: nat, uppercase: bool)
    requires d < 16
    ensures DigitValue(Digit(d, uppercase)) == d
    ensures d < 10 ==> '0' <= Digit(d, uppercase) <= '9'
    ensures Digit(d, uppercase) == '0' ==> d == 0
    ensures forall radix :: d < radix ==> IsDigit(Digit(d, uppercase), radix, uppercase)
  {}

  lemma DigitRange(c: char, radix: nat, uppercase: bool)
    requires IsDigit(c, radix, uppercase)
    ensures 0 <= DigitValue(c) < radix && (DigitValue(c) == 0 <==> c == '0')
    ensures forall d :: IsDigit(d, radix, uppercase) && DigitValue(d) == DigitValue(c) ==> d == c
  {}

  lemma {:induction false} DenoteBounds(s: string, radix: nat, uppercase: bool)
    requires radix >= 2 && AllDigits(s, radix, uppercase)
    ensures Denote(s, radix) >= 0 && (s != "" && s[0] != '0' ==> Denote(s, radix) >= 1)
    decreases |s|
  {
    hide IsDigit, DigitValue;
    if s != "" {
      var init := s[..|s| - 1];
      DenoteBounds(init, radix, uppercase);
      DigitRange(s[|s| - 1], radix, uppercase);
      Grows(Denote(init, radix), radix);
    }
  }

  lemma Grows(n: int, radix: nat)
    requires radix >= 2 && n >= 0
    ensures n * radix >= n
  {}

  /** Digits of the same length that denote the same number are the same. */
  lemma {:induction false} DenoteIsInjective(s: string, t: string, radix: nat, uppercase: bool)
    requires radix >= 2 && AllDigits(s, radix, uppercase) && AllDigits(t, radix, uppercase) && |s| == |t|
    requires Denote(s, radix) == Denote(t, radix)
    ensures s == t
    decreases |s|
  {
    hide IsDigit, DigitValue;
    if s != "" {
      var n := |s| - 1;
      DigitRange(s[n], radix, uppercase);
      DigitRange(t[n], radix, uppercase);
      SameQuotient(Denote(s[..n], radix), DigitValue(s[n]), Denote(t[..n], radix), DigitValue(t[n]), radix);
      DenoteIsInjective(s[..n], t[..n], radix, uppercase);
      assert s == s[..n] + [s[n]] && t == t[..n] + [t[n]];
    }
  }

  lemma SameQuotient(a: int, c: int, b: int, d: int, radix: nat)
    requires 0 <= c < radix && 0 <= d < radix && a * radix + c == b * radix + d
    ensures a == b && c == d
  {
    if a > b { NextMultiple(a, b, radix); }
    if b > a { NextMultiple(b, a, radix); }
  }

  lemma NextMultiple(a: int, b: int, radix: nat)
    requires a > b
    ensures a * radix >= b * radix + radix
  {
    assert (a - b - 1) * radix >= 0;
    assert a * radix == (a - b - 1) * radix + (b * radix + radix);
  }

  /** A numeral that is longer, with no zero in front, denotes more. */
  lemma {:induction false} LongerIsLarger(s: string, t: string, radix: nat, uppercase: bool)
    requires radix >= 2 && AllDigits(s, radix, uppercase) && AllDigits(t, radix, uppercase)
    requires |s| > |t| && s[0] != '0'
    ensures Denote(s, radix) > Denote(t, radix)
    decreases |t|
  {
    hide IsDigit, DigitValue;
    var n := |s| - 1;
    DigitRange(s[n], radix, uppercase);
    if t == "" {
      DenoteBounds(s, radix, uppercase);
    } else {
      var m := |t| - 1;
      DigitRange(t[m], radix, uppercase);
      LongerIsLarger(s[..n], t[..m], radix, uppercase);
      NextMultiple(Denote(s[..n], radix), Denote(t[..m], radix), radix);
    }
  }

  /** There is one numeral of a value. */
  lemma NumeralIsUnique(s: string, t: string, value: int, radix: nat, uppercase: bool, width: nat)
    requires radix >= 2
    requires IsNumeral(s, value, radix, uppercase, width) && IsNumeral(t, value, radix, uppercase, width)
    ensures s == t
  {
    hide AreDigitsOf;
    if value < 0 {
      DigitsAreUnique(s[1..], t[1..], -value, radix, uppercase, width);
      assert s == [s[0]] + s[1..] && t == [t[0]] + t[1..];
    } else {
      DigitsAreUnique(s, t, value, radix, uppercase, width);
    }
  }

  lemma DigitsAreUnique(s: string, t: string, u: nat, radix: nat, uppercase: bool, width: nat)
    requires radix >= 2
    requires AreDigitsOf(s, u, radix, uppercase, width) && AreDigitsOf(t, u, radix, uppercase, width)
    ensures s == t
  {
    hide AllDigits, Denote;
    if |s| > |t| { LongerIsLarger(s, t, radix, uppercase); }
    if |t| > |s| { LongerIsLarger(t, s, radix, uppercase); }
    DenoteIsInjective(s, t, radix, uppercase);
  }

  lemma DenoteLast(s: string, c: char, radix: nat)
    ensures Denote(s + [c], radix) == Denote(s, radix) * radix + DigitValue(c)
  {
    assert (s + [c])[..|s|] == s;
  }

  lemma DenoteStep(u: nat, radix: nat, uppercase: bool, rest: string)
    requires 2 <= radix <= 16 && Denote(Reverse(rest), radix) == u / radix
    ensures Denote(Reverse([Digit(u % radix, uppercase)] + rest), radix) == u
  {
    hide Digit, DigitValue, Denote;
    var c := Digit(u % radix, uppercase);
    assert ([c] + rest)[1..] == rest;
    DenoteLast(Reverse(rest), c, radix);
    DigitInverse(u % radix, uppercase);
    assert u == u / radix * radix + u % radix;
  }

  lemma {:induction false} ReverseDenotes(u: nat, radix: nat, uppercase: bool)
    requires 2 <= radix <= 16
    ensures Denote(Reverse(LowFirst(u, radix, uppercase)), radix) == u
    decreases u
  {
    hide Digit, Reverse;
    if u / radix > 0 {
      Shrinks(u, radix);
      ReverseDenotes(u / radix, radix, uppercase);
      DenoteStep(u, radix, uppercase, LowFirst(u / radix, radix, uppercase));
    } else {
      ReverseEmpty();
      DenoteStep(u, radix, uppercase, "");
    }
  }

  lemma ReverseEmpty()
    ensures Reverse("") == ""
  {}

  lemma Shrinks(u: nat, radix: nat)
    requires 2 <= radix
    ensures u > 0 ==> u / radix < u
  {
    assert u / radix <= u / 2;
  }

  lemma {:induction false} ReverseAppend(s: string, t: string)
    ensures Reverse(s + t) == Reverse(t) + Reverse(s)
    decreases |s|
  {
    if s == "" {
      assert "" + t == t;
    } else {
      assert (s + t)[1..] == s[1..] + t;
      ReverseAppend(s[1..], t);
    }
  }

  lemma {:induction false} ReverseZeros(n: int)
    ensures Reverse(Zeros(n)) == Zeros(n)
    ensures forall k :: 0 <= k < |Zeros(n)| ==> Zeros(n)[k] == '0'
    ensures |Zeros(n)| == if n > 0 then n else 0
    decreases n
  {
    if n > 0 {
      ReverseZeros(n - 1);
      assert forall k :: 0 <= k < n ==> Reverse(Zeros(n))[k] == '0';
    }
  }

  lemma {:induction false} ZerosDenote(z: string, s: string, radix: nat)
    requires forall k :: 0 <= k < |z| ==> z[k] == '0'
    ensures Denote(z + s, radix) == Denote(s, radix)
    decreases |z| + |s|
  {
    if s == "" {
      assert z + s == z;
      if z != "" { ZerosDenote(z[..|z| - 1], "", radix); assert z[..|z| - 1] + "" == z[..|z| - 1]; }
    } else {
      ZerosDenote(z, s[..|s| - 1], radix);
      assert (z + s)[..|z + s| - 1] == z + s[..|s| - 1];
    }
  }

  lemma MagnitudeIsSize(v: Int32, unsig: bool)
    ensures Magnitude(v, unsig) == if unsig then v % 0x1_0000_0000 else if v < 0 then 0 - v as int else v
  {}

  /** The digits are of the radix, and the last one written is no zero, unless the number is. */
  lemma {:induction false} LowFirstDigits(u: nat, radix: nat, uppercase: bool)
    requires 2 <= radix <= 16
    ensures var digits := LowFirst(u, radix, uppercase);
      AllDigits(digits, radix, uppercase) && |digits| >= 1 && (|digits| > 1 ==> digits[|digits| - 1] != '0')
    ensures u > 0 ==> LowFirst(u, radix, uppercase)[|LowFirst(u, radix, uppercase)| - 1] != '0'
    decreases u
  {
    hide Digit, IsDigit;
    DigitInverse(u % radix, uppercase);
    if u / radix > 0 {
      Shrinks(u, radix);
      LowFirstDigits(u / radix, radix, uppercase);
    }
  }

  lemma PaddedDigits(u: nat, radix: nat, uppercase: bool, zeroPad: nat)
    requires 2 <= radix <= 16
    ensures var digits := LowFirst(u, radix, uppercase);
      AreDigitsOf(Zeros(zeroPad - |digits|) + Reverse(digits), u, radix, uppercase, zeroPad)
  {
    hide LowFirst, Denote, Zeros, IsDigit;
    var digits := LowFirst(u, radix, uppercase);
    var zeros := Zeros(zeroPad - |digits|);
    LowFirstDigits(u, radix, uppercase);
    ReverseZeros(zeroPad - |digits|);
    ZerosDenote(zeros, Reverse(digits), radix);
    ReverseDenotes(u, radix, uppercase);
    ZeroIsDigit(radix, uppercase);
  }

  lemma ZeroIsDigit(radix: nat, uppercase: bool)
    ensures radix >= 2 ==> IsDigit('0', radix, uppercase)
  {}

  /** The text of a number is the numeral of its value: for unsigned values from 2^31 on and for the most negative int,
      too. */
  lemma ItoaIsNumeral(v: Int32, radix: nat, uppercase: bool, unsig: bool, zeroPad: nat)
    requires 2 <= radix <= 16
    ensures IsNumeral(Itoa(v, radix, uppercase, unsig, zeroPad), if unsig then v % 0x1_0000_0000 else v, radix,
                      uppercase, zeroPad)
  {
    hide LowFirst, Denote, Zeros, AreDigitsOf, Itoa;
    var digits := LowFirst(Magnitude(v, unsig), radix, uppercase);
    var padded := Zeros(zeroPad - |digits|) + Reverse(digits);
    ItoaParts(v, radix, uppercase, unsig, zeroPad);
    PaddedDigits(Magnitude(v, unsig), radix, uppercase, zeroPad);
    MagnitudeIsSize(v, unsig);
    assert ("-" + padded)[1..] == padded;
    assert "" + padded == padded;
  }

  lemma ItoaParts(v: Int32, radix: nat, uppercase: bool, unsig: bool, zeroPad: nat)
    requires 2 <= radix <= 16
    ensures var digits := LowFirst(Magnitude(v, unsig), radix, uppercase);
      Itoa(v, radix, uppercase, unsig, zeroPad) ==
      (if IsNegative(v, unsig) then "-" else "") + (Zeros(zeroPad - |digits|) + Reverse(digits))
  {
    hide Magnitude, LowFirst, Zeros, IsNegative;
    var digits := LowFirst(Magnitude(v, unsig), radix, uppercase);
    var zeros := Zeros(zeroPad - |digits|);
    var sign := if IsNegative(v, unsig) then "-" else "";
    ReverseAppend(digits + zeros, sign);
    ReverseAppend(digits, zeros);
    ReverseZeros(zeroPad - |digits|);
    assert Reverse(sign) == sign;
  }

  // ---------------------------------------------------------------- mini_itoa

  lemma UnrollLow(u: nat, radix: nat, uppercase: bool)
    requires 2 <= radix <= 16
    ensures LowFirst(u, radix, uppercase) ==
      [Digit(u % radix, uppercase)] + if u / radix > 0 then LowFirst(u / radix, radix, uppercase) else ""
    ensures |LowFirst(u, radix, uppercase)| >= 1
  {}

  /** The loop that takes off the digits. */
  method WriteDigits(value: Int32, radix: nat, uppercase: bool, buffer: array<char>) returns (p: nat)
    requires 2 <= radix <= 16 && |LowFirst(Unsigned(value), radix, uppercase)| <= buffer.Length
    modifies buffer
    ensures p == |LowFirst(Unsigned(value), radix, uppercase)|
    ensures buffer[..p] == LowFirst(Unsigned(value), radix, uppercase)
    ensures forall k :: p <= k < buffer.Length ==> buffer[k] == old(buffer[k])
  {
    hide Digit, LowFirst, Unsigned;
    UnrollLow(Unsigned(value), radix, uppercase);
    ghost var digits := LowFirst(Unsigned(value), radix, uppercase);
    var v: Int32 := value;
    p := 0;
    var more := true;
    while more
      invariant 0 <= p <= |digits| && (more ==> p < |digits|)
      invariant more ==> digits == buffer[..p] + LowFirst(Unsigned(v), radix, uppercase)
      invariant !more ==> digits == buffer[..p]
      invariant forall k :: p <= k < buffer.Length ==> buffer[k] == old(buffer[k])
      decreases more, Unsigned(v)
    {
      var u := Unsigned(v);
      UnsignedRange(v);
      HalfFits(u, radix);
      var digit := u % radix;
      buffer[p] := Digit(digit, uppercase);
      p := p + 1;
      var quotient := u / radix;
      UnrollLow(u, radix, uppercase);
      v := quotient;
      UnsignedRange(v);
      more := v > 0;
      if more { UnrollLow(quotient, radix, uppercase); }
    }
  }

  lemma ZerosAre(s: string, n: int)
    requires |s| == |Zeros(n)| && forall k :: 0 <= k < |s| ==> s[k] == '0'
    ensures s == Zeros(n)
  {
    ReverseZeros(n);
  }

  method PadZeros(buffer: array<char>, start: nat, zeroPad: nat) returns (p: nat)
    requires start <= buffer.Length && zeroPad <= buffer.Length
    modifies buffer
    ensures p == start + |Zeros(zeroPad - start)| <= buffer.Length
    ensures buffer[..p] == old(buffer[..start]) + Zeros(zeroPad - start)
    ensures forall k :: p <= k < buffer.Length ==> buffer[k] == old(buffer[k])
  {
    hide Zeros;
    p := start;
    ReverseZeros(zeroPad - start);
    while p < zeroPad
      invariant start <= p <= start + |Zeros(zeroPad - start)| <= buffer.Length
      invariant buffer[..start] == old(buffer[..start]) && forall k :: start <= k < p ==> buffer[k] == '0'
      invariant forall k :: p <= k < buffer.Length ==> buffer[k] == old(buffer[k])
    {
      buffer[p] := '0';
      p := p + 1;
    }
    ZerosAre(buffer[start..p], zeroPad - start);
    assert buffer[..p] == buffer[..start] + buffer[start..p];
  }

  /** mini_itoa. Radix 0 traps and radix 1 does not terminate; only 10 and 16 are used. */
  method MiniItoa(value: Int32, radix: nat, uppercase: bool, unsig: bool, buffer: array<char>, zeroPad: nat)
    returns (len: nat)
    requires radix >= 2
    requires radix <= 16 ==> |Itoa(value, radix, uppercase, unsig, zeroPad)| < buffer.Length
    modifies buffer
    ensures radix > 16 ==> len == 0 && buffer[..] == old(buffer[..])
    ensures radix <= 16 ==>
      && len == |Itoa(value, radix, uppercase, unsig, zeroPad)|
      && buffer[..len] == Itoa(value, radix, uppercase, unsig, zeroPad) && buffer[len] == '\0'
      && forall k :: len < k < buffer.Length ==> buffer[k] == old(buffer[k])
  {
    hide LowFirst, Zeros, Unsigned, Wrap32;
    if radix > 16 {
      return 0;
    }
    ghost var digits := LowFirst(Magnitude(value, unsig), radix, uppercase);
    var negative := false;
    var v: Int32 := value;
    if v < 0 && !unsig {
      negative := true;
      v := Negate(v);
    }
    ReverseZeros(zeroPad - |digits|);
    var p := WriteDigits(v, radix, uppercase, buffer);
    p := PadZeros(buffer, p, zeroPad);
    len := FinishNumber(buffer, p, negative);
  }

  /** The sign and the terminator are put after the digits, and the text is reversed. */
  method FinishNumber(buffer: array<char>, start: nat, negative: bool) returns (len: nat)
    requires start + (if negative then 1 else 0) < buffer.Length
    modifies buffer
    ensures len == start + if negative then 1 else 0
    ensures buffer[..len] == Reverse(old(buffer[..start]) + if negative then "-" else "") && buffer[len] == '\0'
    ensures forall k :: len < k < buffer.Length ==> buffer[k] == old(buffer[k])
  {
    hide Reverse;
    len := start;
    if negative {
      buffer[len] := '-';
      len := len + 1;
    }
    buffer[len] := '\0';
    assert buffer[..len] == old(buffer[..start]) + if negative then "-" else "";
    ReverseInPlace(buffer, len);
  }

  lemma UnsignedRange(v: Int32)
    ensures Unsigned(v) < TWO32 && (v >= 0 ==> Unsigned(v) == v)
  {}

  lemma HalfFits(u: nat, radix: nat)
    requires 2 <= radix && u < TWO32
    ensures u / radix < TWO31 && (u > 0 ==> u / radix < u)
  {
    assert u / radix <= u / 2;
  }

  method ReverseInPlace(buffer: array<char>, len: nat)
    requires len < buffer.Length
    modifies buffer
    ensures buffer[..len] == Reverse(old(buffer[..len]))
    ensures forall k :: len <= k < buffer.Length ==> buffer[k] == old(buffer[k])
  {
    var i := 0;
    while i < len / 2
      invariant 0 <= i <= len / 2
      invariant forall k :: 0 <= k < i ==>
        buffer[k] == old(buffer[len - 1 - k]) && buffer[len - 1 - k] == old(buffer[k])
      invariant forall k :: i <= k < len - i ==> buffer[k] == old(buffer[k])
      invariant forall k :: len <= k < buffer.Length ==> buffer[k] == old(buffer[k])
    {
      var j := buffer[i];
      buffer[i] := buffer[len - i - 1];
      buffer[len - i - 1] := j;
      i := i + 1;
    }
    assert forall k :: 0 <= k < len ==> buffer[..len][k] == Reverse(old(buffer[..len]))[k];
  }

  // ---------------------------------------------------------------- atoi

  function AtoiFrom(s: string, res: Int32): Int32
    decreases |s|
  {
    if s == "" then res
    else if '0' <= s[0] <= '9' then AtoiFrom(s[1..], Wrap32(res * 10 + s[0] as int - '0' as int))
    else -1
  }

  method Atoi(s: string) returns (res: Int32)
    ensures res == AtoiFrom(s, 0)
  {
    res := 0;
    var i := 0;
    while i < |s|
      invariant 0 <= i <= |s| && AtoiFrom(s[i..], res) == AtoiFrom(s, 0)
    {
      if '0' <= s[i] <= '9' {
        res := Wrap32(res * 10 + s[i] as int - '0' as int);
      } else {
        return -1;
      }
      assert s[i..][1..] == s[i + 1..];
      i := i + 1;
    }
  }

  predicate IsDecimal(s: string) {
    AllDigits(s, 10, false)
  }

  lemma {:induction false} AtoiAppend(s: string, c: char, res: Int32)
    requires IsDecimal(s) && '0' <= c <= '9'
    ensures AtoiFrom(s + [c], res) == Wrap32(AtoiFrom(s, res) * 10 + c as int - '0' as int)
    decreases |s|
  {
    if s == "" {
      assert "" + [c] == [c];
      assert [c][1..] == "";
    } else {
      assert (s + [c])[1..] == s[1..] + [c];
      AtoiAppend(s[1..], c, Wrap32(res * 10 + s[0] as int - '0' as int));
    }
  }

  lemma WrapStep(v: int, d: int)
    ensures Wrap32(Wrap32(v) * 10 + d) == Wrap32(v * 10 + d)
  {
    var k := (v + TWO31) / TWO32;
    assert Wrap32(v) == v - k * TWO32;
    ShiftedWraps(v * 10 + d, -10 * k);
  }

  lemma ShiftedWraps(v: int, k: int)
    ensures Wrap32(v + k * TWO32) == Wrap32(v)
  {
    assert v + k * TWO32 + TWO31 == (v + TWO31) + k * TWO32;
    assert ((v + TWO31) + k * TWO32) % TWO32 == (v + TWO31) % TWO32;
  }

  lemma {:induction false} AtoiWraps(s: string)
    requires IsDecimal(s)
    ensures AtoiFrom(s, 0) == Wrap32(Denote(s, 10))
    decreases |s|
  {
    hide Wrap32, AtoiFrom;
    if s != "" {
      var init, c := s[..|s| - 1], s[|s| - 1];
      assert Denote(s, 10) == Denote(init, 10) * 10 + (c as int - '0' as int);
      AtoiWraps(init);
      AtoiAppend(init, c, 0);
      WrapStep(Denote(init, 10), c as int - '0' as int);
      assert init + [c] == s;
    } else {
      AtoiEmpty();
      WrapIs(0);
    }
  }

  lemma {:induction false} AtoiRefuses(s: string, res: Int32)
    requires !IsDecimal(s)
    ensures AtoiFrom(s, res) == -1
    decreases |s|
  {
    if '0' <= s[0] <= '9' {
      assert !IsDecimal(s[1..]);
      AtoiRefuses(s[1..], Wrap32(res * 10 + s[0] as int - '0' as int));
    }
  }

  lemma WrapIs(v: int)
    ensures (Wrap32(v) - v) % 0x1_0000_0000 == 0 && (-0x8000_0000 <= v < 0x8000_0000 ==> Wrap32(v) == v)
  {
    var k := (v + TWO31) / TWO32;
    assert Wrap32(v) - v == -k * TWO32;
  }

  /** atoi of digits is the number they denote, modulo 2^32; of every other string, -1. */
  lemma AtoiIs(s: string)
    ensures IsDecimal(s) ==> (AtoiFrom(s, 0) - Denote(s, 10)) % 0x1_0000_0000 == 0
    ensures IsDecimal(s) && Denote(s, 10) < 0x8000_0000 ==> AtoiFrom(s, 0) == Denote(s, 10)
    ensures !IsDecimal(s) ==> AtoiFrom(s, 0) == -1
  {
    hide Wrap32, AtoiFrom, IsDigit, Denote;
    if IsDecimal(s) {
      AtoiWraps(s);
      WrapIs(Denote(s, 10));
      DenoteBounds(s, 10, false);
    } else {
      AtoiRefuses(s, 0);
    }
  }

  lemma AtoiEmpty()
    ensures AtoiFrom("", 0) == 0
  {}

  /** The shell reads back the numerals it prints exactly for the numbers from -1 on: every other negative number
      reads as -1, its answer for a string that is not a numeral. */
  lemma AtoiInvertsIff(v: Int32, zeroPad: nat)
    ensures AtoiFrom(Itoa(v, 10, false, false, zeroPad), 0) == v <==> v >= -1
  {
    hide Denote, Itoa, AtoiFrom;
    ItoaIsNumeral(v, 10, false, false, zeroPad);
    AtoiIs(Itoa(v, 10, false, false, zeroPad));
  }

  /** -2 is printed as a minus sign and a digit, and read back as -1. */
  lemma AtoiOfMinusTwo()
    ensures Itoa(-2, 10, false, false, 0) == "-2" && AtoiFrom("-2", 0) == -1
  {
    assert Magnitude(-2, false) == 2;
    assert LowFirst(2, 10, false) == "2";
    assert "2" + "" == "2";
    assert Backwards(-2, 10, false, false, 0) == "2-";
    assert "2-"[1..] == "-" && "-"[1..] == "";
  }

  // ---------------------------------------------------------------- what a format means

  datatype Arg = Num(value: Int32) | Str(text: string)

  /** The character at the front of what is left of a C string. */
  function Front(s: string): char {
    if s == "" then '\0' else s[0]
  }

  function Tail(s: string): string {
    if s == "" then "" else s[1..]
  }

  function NextNum(args: seq<Arg>): Int32 {
    if args != [] && args[0].Num? then args[0].value else 0
  }

  function NextStr(args: seq<Arg>): string {
    if args != [] && args[0].Str? then args[0].text else ""
  }

  function Rest(args: seq<Arg>): seq<Arg> {
    if args == [] then [] else args[1..]
  }

  /** The text of one conversion and the arguments after it. */
  function Convert(ch: char, pad: nat, args: seq<Arg>): (string, seq<Arg>) {
    if ch == 'u' || ch == 'd' then (Itoa(NextNum(args), 10, false, ch == 'u', pad), Rest(args))
    else if ch == 'x' || ch == 'X' then (Itoa(NextNum(args), 16, ch == 'X', true, pad), Rest(args))
    else if ch == 'c' then ([CharOf(NextNum(args))], Rest(args))
    else if ch == 's' then (NextStr(args), Rest(args))
    else ([ch], args)
  }

  function CharOf(v: Int32): char { (v % 256) as char }

  function PadOf(ch: char): nat {
    if '0' <= ch <= '9' then ch as int - '0' as int else 0
  }

  datatype Directive = End | Conversion(ch: char, pad: nat, rest: string)

  /** What follows a percent sign: a conversion, after a zero and the character for its width if there is one. */
  function Parse(after: string): (r: Directive)
    ensures r.Conversion? ==> |r.rest| < |after|
  {
    if Front(after) == '0' then
      if Front(after[1..]) == '\0' || Front(after[2..]) == '\0' then End
      else Conversion(after[2], PadOf(after[1]), after[3..])
    else if Front(after) == '\0' then End
    else Conversion(after[0], 0, after[1..])
  }

  /** The whole text a format and its arguments stand for, with no limit on its size. */
  function Format(fmt: string, args: seq<Arg>): string
    decreases |fmt|
  {
    if Front(fmt) == '\0' then ""
    else if fmt[0] != '%' then [fmt[0]] + Format(fmt[1..], args)
    else
      var r := Parse(fmt[1..]);
      if r == End then "" else Convert(r.ch, r.pad, args).0 + Format(r.rest, Convert(r.ch, r.pad, args).1)
  }

  // ---------------------------------------------------------------- the bounded buffer

  /** The longest prefix of s of at most n characters. */
  function Prefix(s: string, n: nat): (p: string)
    ensures p <= s && |p| == if |s| < n then |s| else n
  {
    if |s| <= n then s else s[..n]
  }

  class MiniBuff {
    const buffer: array<char>
    /** pbuffer - buffer */
    var used: nat
    const size: nat

    predicate Valid()
      reads this, buffer
    {
      && size <= buffer.Length && (size > 0 ==> used < size) && (size == 0 ==> used == 0)
      && (used > 0 ==> buffer[used] == '\0')
    }

    function Text(): string
      requires Valid()
      reads this, buffer
    {
      buffer[..used]
    }

    constructor (b: array<char>, n: nat)
      requires n <= b.Length
      ensures Valid() && Text() == "" && buffer == b && size == n
    {
      buffer := b;
      size := n;
      used := 0;
    }

    /** _putc: one character if one fits before the terminator. */
    method Putc(ch: char) returns (n: nat)
      requires Valid()
      modifies this`used, buffer
      ensures Valid() && Text() == Prefix(old(Text()) + [ch], if size > 0 then size - 1 else 0)
      ensures n == |Text()| - |old(Text())|
      ensures forall k :: used < k < buffer.Length ==> buffer[k] == old(buffer[k])
    {
      if used + 1 >= size {
        return 0;
      }
      buffer[used] := ch;
      used := used + 1;
      buffer[used] := '\0';
      return 1;
    }

    /** _puts: as much of s as fits before the terminator. */
    method Puts(s: string) returns (n: nat)
      requires Valid() && size > 0
      modifies this`used, buffer
      ensures Valid() && Text() == Prefix(old(Text()) + s, size - 1)
      ensures n == |Text()| - |old(Text())|
      ensures forall k :: used < k < buffer.Length ==> buffer[k] == old(buffer[k])
    {
      n := |s|;
      if size - used - 1 < n {
        n := size - used - 1;
      }
      ghost var start := used;
      var i := 0;
      while i < n
        invariant 0 <= i <= n && used == start + i
        invariant buffer[..start] == old(buffer[..used])
        invariant buffer[start..start + i] == s[..i]
        invariant forall k :: start + i <= k < buffer.Length ==> buffer[k] == old(buffer[k])
      {
        buffer[used] := s[i];
        used := used + 1;
        i := i + 1;
      }
      buffer[used] := '\0';
      assert buffer[..used] == buffer[..start] + buffer[start..used];
      assert buffer[..used] == old(buffer[..used]) + s[..n];
    }
  }

  // ---------------------------------------------------------------- mini_vsnprintf

  lemma {:induction false} LowFirstSize(u: nat, radix: nat, uppercase: bool, k: nat)
    requires 10 <= radix <= 16 && u < Pow10(k) && k > 0
    ensures |LowFirst(u, radix, uppercase)| <= k
    decreases k
  {
    hide Digit;
    QuotientBelow(u, radix);
    if u / radix > 0 && k > 1 { LowFirstSize(u / radix, radix, uppercase, k - 1); }
  }

  function Pow10(k: nat): nat {
    if k == 0 then 1 else 10 * Pow10(k - 1)
  }

  lemma QuotientBelow(u: nat, radix: nat)
    requires 10 <= radix
    ensures u / radix <= u / 10
  {
    var q := u / radix;
    assert q * radix <= u;
    assert q * 10 <= q * radix;
  }

  /** No number takes more than 12 characters. */
  lemma ItoaSize(v: Int32, radix: nat, uppercase: bool, unsig: bool, zeroPad: nat)
    requires 10 <= radix <= 16 && zeroPad < 10
    ensures |Itoa(v, radix, uppercase, unsig, zeroPad)| <= 12
  {
    hide LowFirst, Zeros;
    assert Pow10(5) == 100000;
    assert Pow10(10) == 100000 * Pow10(5);
    LowFirstSize(Magnitude(v, unsig), radix, uppercase, 10);
    ReverseZeros(zeroPad - |LowFirst(Magnitude(v, unsig), radix, uppercase)|);
  }

  lemma FormatStep(fmt: string, args: seq<Arg>)
    requires Front(fmt) != '\0'
    ensures Format(fmt, args) ==
      if fmt[0] != '%' then [fmt[0]] + Format(fmt[1..], args)
      else
        var r := Parse(fmt[1..]);
        if r == End then "" else Convert(r.ch, r.pad, args).0 + Format(r.rest, Convert(r.ch, r.pad, args).1)
  {}

  method ReadDirective(after: string) returns (r: Directive)
    ensures r == Parse(after)
  {
    var ch := Front(after);
    var fmt := Tail(after);
    var pad := 0;
    if ch == '0' {
      ch := Front(fmt);
      fmt := Tail(fmt);
      if ch == '\0' {
        return End;
      }
      if '0' <= ch <= '9' {
        pad := ch as int - '0' as int;
      }
      ch := Front(fmt);
      fmt := Tail(fmt);
    }
    if ch == '\0' {
      return End;
    }
    return Conversion(ch, pad, fmt);
  }

  /** The switch over the conversion character. */
  method Emit(b: MiniBuff, bf: array<char>, ch: char, pad: nat, args: seq<Arg>) returns (rest: seq<Arg>)
    requires b.Valid() && b.size > 0 && bf.Length == 24 && pad < 10 && bf != b.buffer
    modifies b`used, b.buffer, bf
    ensures b.Valid() && b.Text() == Prefix(old(b.Text()) + Convert(ch, pad, args).0, b.size - 1)
    ensures rest == Convert(ch, pad, args).1
    ensures forall k :: b.used < k < b.buffer.Length ==> b.buffer[k] == old(b.buffer[k])
  {
    hide Itoa;
    rest := args;
    if ch == 'u' || ch == 'd' {
      ItoaSize(NextNum(args), 10, false, ch == 'u', pad);
      var len := MiniItoa(NextNum(args), 10, false, ch == 'u', bf, pad);
      rest := Rest(args);
      var k := b.Puts(bf[..len]);
    } else if ch == 'x' || ch == 'X' {
      ItoaSize(NextNum(args), 16, ch == 'X', true, pad);
      var len := MiniItoa(NextNum(args), 16, ch == 'X', true, bf, pad);
      rest := Rest(args);
      var k := b.Puts(bf[..len]);
    } else if ch == 'c' {
      var k := b.Putc(CharOf(NextNum(args)));
      rest := Rest(args);
    } else if ch == 's' {
      var k := b.Puts(NextStr(args));
      rest := Rest(args);
    } else {
      var k := b.Putc(ch);
    }
  }

  lemma ParsePad(after: string)
    ensures Parse(after).Conversion? ==> Parse(after).pad < 10
  {}

  lemma PrefixGrows(done: string, item: string, rest: string, whole: string, n: nat)
    requires |done| <= n && whole == done + (item + rest)
    ensures var text := Prefix(done + item, n);
      && |text| <= n && text == Prefix(whole, |text|)
      && (|text| < n ==> whole == text + rest) && (|text| == n ==> text == Prefix(whole, n))
  {
    assert whole == (done + item) + rest;
  }

  /** What the loop of mini_vsnprintf keeps: the text so far is a prefix of the whole, and unless the buffer is full
      the rest of the format is what is missing. */
  predicate SoFar(text: string, whole: string, limit: nat, rest: string) {
    && |text| <= limit && text == Prefix(whole, |text|)
    && (|text| < limit ==> whole == text + rest) && (|text| == limit ==> text == Prefix(whole, limit))
  }

  lemma SoFarStarts(whole: string, limit: nat)
    ensures SoFar("", whole, limit, whole)
  {
    assert whole == "" + whole;
  }

  lemma SoFarGrows(done: string, item: string, rest: string, whole: string, limit: nat)
    requires SoFar(done, whole, limit, item + rest) && |done| < limit
    ensures SoFar(Prefix(done + item, limit), whole, limit, rest)
  {
    PrefixGrows(done, item, rest, whole, limit);
  }

  lemma SoFarEnds(text: string, whole: string, limit: nat, rest: string)
    requires SoFar(text, whole, limit, rest) && (|text| == limit || rest == "")
    ensures text == Prefix(whole, limit)
  {
    assert text + "" == text;
  }

  /** mini_vsnprintf: the output is the longest prefix of the whole formatting that fits in size - 1 characters. */
  method MiniVsnprintf(buffer: array<char>, size: nat, fmt: string, args: seq<Arg>) returns (n: nat)
    requires size <= buffer.Length
    modifies buffer
    ensures n == (if |Format(fmt, args)| < size then |Format(fmt, args)| else if size > 0 then size - 1 else 0)
    ensures buffer[..n] == Format(fmt, args)[..n]
    ensures n > 0 ==> buffer[n] == '\0'
    ensures forall k :: n < k < buffer.Length ==> buffer[k] == old(buffer[k])
  {
    hide Convert, Format, SoFar, Prefix, Parse;
    var b := new MiniBuff(buffer, size);
    var bf := new char[24];
    ghost var whole := Format(fmt, args);
    ghost var limit := if size > 0 then size - 1 else 0;
    var rest, va := fmt, args;
    SoFarStarts(whole, limit);
    while Front(rest) != '\0'
      invariant b.Valid() && b.buffer == buffer && b.size == size && fresh(b) && fresh(bf) && bf.Length == 24
      invariant SoFar(b.Text(), whole, limit, Format(rest, va))
      invariant forall k :: b.used < k < buffer.Length ==> buffer[k] == old(buffer[k])
      decreases |rest|
    {
      if b.used + 1 >= size {
        break;
      }
      FormatStep(rest, va);
      ghost var done := b.Text();
      if rest[0] != '%' {
        SoFarGrows(done, [rest[0]], Format(rest[1..], va), whole, limit);
        var k := b.Putc(rest[0]);
        rest := rest[1..];
      } else {
        ParsePad(rest[1..]);
        var directive := ReadDirective(rest[1..]);
        if directive == End {
          break;
        }
        ghost var item := Convert(directive.ch, directive.pad, va);
        SoFarGrows(done, item.0, Format(directive.rest, item.1), whole, limit);
        va := Emit(b, bf, directive.ch, directive.pad, va);
        rest := directive.rest;
      }
    }
    n := b.used;
    FormatEnds(rest, va);
    SoFarEnds(b.Text(), whole, limit, Format(rest, va));
  }

  lemma FormatEnds(fmt: string, args: seq<Arg>)
    ensures Front(fmt) == '\0' ==> Format(fmt, args) == ""
  {}
}
