/** Integers as text: `uintToString`, `valueToString` and `Reader::decodeNumber`. */
module JsonNumber {
  import opened JsonValue
  import opened Wrappers

  /** A value the machine keeps in 64 unsigned bits: assigning anything larger
      to a variable of this type is an error, so no wrap-around goes unnoticed. */
  type uint64 = x: int | 0 <= x <= MAX_UINT64

  predicate IsDigit(c: char) {
    '0' <= c <= '9'
  }

  function DigitChar(d: nat): char
    requires d < 10
  {
    ('0' as int + d) as char
  }

  function DigitValue(c: char): nat
    requires IsDigit(c)
  {
    c as int - '0' as int
  }

  predicate AllDigits(s: string) {
    forall k | 0 <= k < |s| :: IsDigit(s[k])
  }

  /** The number a digit string denotes; the empty string denotes 0. */
  function Denoted(s: string): nat
    requires AllDigits(s)
  {
    if s == [] then 0 else Denoted(s[..|s| - 1]) * 10 + DigitValue(s[|s| - 1])
  }

  /** Digits count in tens from the right. */
  lemma Tens(s: string, d: nat)
    requires AllDigits(s) && d < 10
    ensures var digit := ("0123456789")[d];
      AllDigits(s + [digit]) && Denoted(s + [digit]) == 10 * Denoted(s) + d && Denoted([digit]) == d
  {
    var digit := ("0123456789")[d];
    assert digit as int == '0' as int + d;
    assert (s + [digit])[..|s|] == s;
    assert [digit][..0] == [];
  }

  /** The shortest digit string denoting `n`. */
  function Decimal(n: nat): (s: string)
    ensures s != [] && AllDigits(s)
  {
    if n < 10 then [DigitChar(n)] else Decimal(n / 10) + [DigitChar(n % 10)]
  }

  function IntText(v: Value): string
    requires v.Int? || v.UInt?
  {
    if v.Int? then (if v.i < 0 then "-" + Decimal(-v.i) else Decimal(v.i)) else Decimal(v.u)
  }

  /** The integer with the tag `decodeNumber` chooses: unsigned only above the
      largest 32-bit `int`. */
  function Retag(n: int): Value {
    if n <= MAX_INT32 then Int(n) else UInt(n)
  }

  /** What `decodeNumber` must compute: the denoted number when it lies in the
      64-bit range, and nothing (the lexeme is handed to `decodeDouble`) when
      the text is no digit string or the number is out of range. */
  function Decoded(lexeme: string): Option<Value>
    requires lexeme != []
  {
    var negative := lexeme[0] == '-';
    var digits := if negative then lexeme[1..] else lexeme;
    if !AllDigits(digits) then None
    else if negative then
      (if Denoted(digits) > -MIN_INT64 then None else Some(Int(0 - Denoted(digits))))
    else
      (if Denoted(digits) > MAX_UINT64 then None else Some(Retag(Denoted(digits))))
  }

  lemma {:induction false} DenotedPrefix(s: string, k: nat)
    requires AllDigits(s) && k <= |s|
    ensures Denoted(s[..k]) <= Denoted(s)
    ensures k < |s| ==> Denoted(s[..k]) * 10 <= Denoted(s)
    decreases |s|
  {
    if k < |s| {
      var t := s[..|s| - 1];
      assert t[..k] == s[..k];
      DenotedPrefix(t, k);
    } else {
      assert s[..k] == s;
    }
  }

  lemma DenotedStep(s: string, k: nat)
    requires k < |s| && AllDigits(s[..k + 1])
    ensures AllDigits(s[..k])
    ensures Denoted(s[..k + 1]) == Denoted(s[..k]) * 10 + DigitValue(s[k])
  {
    var t := s[..k + 1];
    assert t[..k] == s[..k] && t[k] == s[k];
    forall j | 0 <= j < k ensures IsDigit(s[..k][j]) {
      assert s[..k][j] == t[j];
    }
  }

  /** `decodeNumber`: the loop with its threshold test never leaves 64 bits, and
      it gives up exactly when the number is out of range. */
  method DecodeNumber(lexeme: string) returns (decoded: Option<Value>)
    requires lexeme != []
    ensures decoded == Decoded(lexeme)
  {
    var current := 0;
    var isNegative := lexeme[0] == '-';
    if isNegative {
      current := 1;
    }
    var maxIntegerValue: uint64 := if isNegative then MAX_INT64 + 1 else MAX_UINT64;
    var threshold: uint64 := maxIntegerValue / 10;
    var value: uint64 := 0;
    ghost var digits := lexeme[current..];
    ghost var done := 0;
    while current < |lexeme|
      invariant done <= |digits| && current == |lexeme| - |digits| + done
      invariant AllDigits(digits[..done])
      invariant value == Denoted(digits[..done]) <= maxIntegerValue
    {
      var c := lexeme[current];
      assert c == digits[done];
      current := current + 1;
      if !IsDigit(c) {
        return None;
      }
      DenotedStep(digits, done);
      var digit := DigitValue(c);
      if value >= threshold {
        if value > threshold || current != |lexeme| || digit > maxIntegerValue % 10 {
          if AllDigits(digits) {
            GivingUp(digits, done, maxIntegerValue);
          }
          return None;
        }
      }
      value := value * 10 + digit;
      done := done + 1;
    }
    assert digits[..done] == digits;
    if isNegative && value == maxIntegerValue {
      return Some(Int(MIN_INT64));
    } else if isNegative {
      return Some(Int(0 - value));
    } else if value <= MAX_INT32 {
      return Some(Int(value));
    } else {
      return Some(UInt(value));
    }
  }

  /** Past the threshold the number is out of range, whatever digits follow. */
  lemma GivingUp(digits: string, done: nat, max: int)
    requires AllDigits(digits) && done < |digits| && max >= 10
    requires Denoted(digits[..done]) >= max / 10
    requires Denoted(digits[..done]) > max / 10 || done + 1 < |digits| || DigitValue(digits[done]) > max % 10
    ensures Denoted(digits) > max
  {
    DenotedStep(digits, done);
    DenotedPrefix(digits, done + 1);
  }

  lemma {:induction false} DenotedDecimal(n: nat)
    ensures Denoted(Decimal(n)) == n
  {
    if n >= 10 {
      DenotedDecimal(n / 10);
      var s := Decimal(n);
      assert s[..|s| - 1] == Decimal(n / 10);
    }
  }

  /** Reading back a printed integer gives that integer, with the tag
      `decodeNumber` chooses. */
  lemma DecodeInvertsPrint(v: Value)
    requires v.Int? || v.UInt?
    requires RealFree(v)
    ensures Decoded(IntText(v)) == Some(Retag(if v.Int? then v.i else v.u))
  {
    var n := if v.Int? then v.i else v.u;
    if n < 0 {
      DecodePrinted(-n);
      assert ("-" + Decimal(-n))[1..] == Decimal(-n);
    } else {
      DecodePrinted(n);
    }
  }

  lemma DecodePrinted(n: nat)
    ensures Decimal(n)[0] != '-' && AllDigits(Decimal(n)) && Denoted(Decimal(n)) == n
  {
    DenotedDecimal(n);
    assert IsDigit(Decimal(n)[0]);
  }

  function Pow10(k: nat): nat {
    if k == 0 then 1 else 10 * Pow10(k - 1)
  }

  lemma {:induction false} DecimalLength(n: nat, k: nat)
    requires k > 0 && n < Pow10(k)
    ensures |Decimal(n)| <= k
  {
    if n >= 10 {
      assert k > 1;
      DecimalLength(n / 10, k - 1);
    }
  }

  /** Twenty digits are enough for 64 bits. */
  lemma LengthBound(n: nat)
    requires n <= MAX_UINT64
    ensures |Decimal(n)| <= 20
  {
    assert Pow10(5) == 10_0000;
    assert Pow10(10) == 100_0000_0000;
    assert Pow10(15) == 1000_0000_0000_0000;
    assert Pow10(20) == 1_0000_0000_0000_0000_0000;
    DecimalLength(n, 20);
  }

  lemma LastDigit(n: nat, tail: string)
    ensures Decimal(n) + tail == (if n < 10 then [] else Decimal(n / 10)) + ([DigitChar(n % 10)] + tail)
  {
  }

  /** `uintToString`: digits are written backwards in front of `end`, after a
      terminating zero; returns where they start. */
  method UintToString(n: nat, buffer: array<char>, end: nat) returns (current: nat)
    requires end <= buffer.Length && |Decimal(n)| < end
    modifies buffer
    ensures current == end - 1 - |Decimal(n)|
    ensures buffer[current..end] == Decimal(n) + ['\0']
  {
    current := end - 1;
    buffer[current] := '\0';
    var value: nat := n;
    var more := true;
    ghost var tail := ['\0'];
    while more
      invariant current == end - |tail| && current < end
      invariant buffer[current..end] == tail
      invariant (if more then Decimal(value) else []) + tail == Decimal(n) + ['\0']
      decreases value + if more then 1 else 0
    {
      LastDigit(value, tail);
      assert |Decimal(value)| + |tail| == |Decimal(n)| + 1;
      current := current - 1;
      buffer[current] := DigitChar(value % 10);
      assert buffer[current..end] == [buffer[current]] + buffer[current + 1..end];
      tail := [DigitChar(value % 10)] + tail;
      value := value / 10;
      more := value != 0;
    }
  }

  /** `valueToString`: the fixed buffer is never overrun, for any 64-bit integer. */
  method ValueToString(v: Value) returns (text: string)
    requires v.Int? || v.UInt?
    requires RealFree(v)
    ensures text == IntText(v)
  {
    var buffer := new char[25];
    var n := if v.Int? then v.i else v.u;
    var current;
    var size: nat := if n < 0 then -n else n;
    LengthBound(size);
    assert MIN_INT64 <= n <= MAX_UINT64;
    hide Decimal, RealFree, AllDigits;
    if n < 0 {
      current := UintToString(if n == MIN_INT64 then MAX_INT64 + 1 else -n, buffer, 25);
      WithoutEnd(buffer[current..25], buffer[current..24], Decimal(size));
      current := current - 1;
      buffer[current] := '-';
      text := buffer[current..24];
      assert text == ['-'] + buffer[current + 1..24];
    } else {
      current := UintToString(n, buffer, 25);
      text := buffer[current..24];
      WithoutEnd(buffer[current..25], text, Decimal(size));
    }
  }

  lemma WithoutEnd(whole: string, digits: string, expected: string)
    requires |whole| == |digits| + 1 && digits == whole[..|digits|] && whole == expected + ['\0']
    ensures digits == expected
  {
  }
}
