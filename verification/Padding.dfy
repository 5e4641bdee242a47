/** Numbers in the login messages: decimal, padded on the left with spaces (construct_login_accepted), and the pattern
    the login validator asks for (validate_login_request). */
module Padding {
  import opened Bytes

  const SPACE: byte := 32

  predicate IsDigit(b: byte) {
    48 <= b <= 57
  }

  predicate IsSpace(b: byte) {
    b == 32 || 9 <= b <= 13
  }

  /** to_string of an unsigned number. */
  function Decimal(n: nat): Bytes {
    if n < 10 then [(48 + n) as byte] else Decimal(n / 10) + [(48 + n % 10) as byte]
  }

  /** The value of a string of digits. */
  function ValueOf(digits: Bytes): nat
    requires forall i :: 0 <= i < |digits| ==> IsDigit(digits[i])
  {
    if digits == [] then 0
    else
      var n := |digits| - 1;
      assert IsDigit(digits[n]);
      ValueOf(digits[..n]) * 10 + (digits[n] as int - 48)
  }

  function Spaces(n: nat): Bytes {
    seq(n, _ => SPACE)
  }

  function Padded(n: nat, width: nat): Bytes
    requires |Decimal(n)| <= width
  {
    Spaces(width - |Decimal(n)|) + Decimal(n)
  }

  /** memset of the field, then the digits copied to its end. */
  method PadNumber(field: array<byte>, n: nat)
    requires |Decimal(n)| <= field.Length
    modifies field
    ensures field[..] == Padded(n, field.Length)
  {
    var digits := Decimal(n);
    var i := 0;
    while i < field.Length
      invariant 0 <= i <= field.Length
      invariant forall j :: 0 <= j < i ==> field[j] == SPACE
    {
      field[i] := SPACE;
      i := i + 1;
    }
    var start := field.Length - |digits|;
    i := 0;
    while i < |digits|
      invariant 0 <= i <= |digits|
      invariant forall j :: 0 <= j < start ==> field[j] == SPACE
      invariant forall j :: 0 <= j < i ==> field[start + j] == digits[j]
    {
      field[start + i] := digits[i];
      i := i + 1;
    }
    assert forall j :: start <= j < field.Length ==> field[j] == digits[j - start] by {
      forall j | start <= j < field.Length ensures field[j] == digits[j - start] {
        assert field[start + (j - start)] == digits[j - start];
      }
    }
  }

  /** The whole string matches ([[:space:]]*)([[:digit:]]+). */
  predicate SpacesThenDigits(s: Bytes) {
    exists i :: 0 <= i < |s| && SplitsAt(s, i)
  }

  predicate SplitsAt(s: Bytes, i: nat) {
    i <= |s| && (forall j :: 0 <= j < i ==> IsSpace(s[j])) && (forall j :: i <= j < |s| ==> IsDigit(s[j]))
  }

  /** What is left without the leading spaces. */
  function Stripped(s: Bytes): Bytes {
    if s != [] && IsSpace(s[0]) then Stripped(s[1..]) else s
  }

  lemma {:induction false} DecimalReads(n: nat)
    ensures Decimal(n) != [] && (forall i :: 0 <= i < |Decimal(n)| ==> IsDigit(Decimal(n)[i]))
    ensures ValueOf(Decimal(n)) == n
  {
    if n >= 10 {
      DecimalReads(n / 10);
      assert Decimal(n)[..|Decimal(n)| - 1] == Decimal(n / 10);
    }
  }

  function PowerOfTen(k: nat): nat {
    if k == 0 then 1 else 10 * PowerOfTen(k - 1)
  }

  /** A number has at most k digits exactly when it is below the k-th power of ten. */
  lemma {:induction false} DecimalLength(n: nat, k: nat)
    requires k >= 1
    ensures |Decimal(n)| <= k <==> n < PowerOfTen(k)
  {
    if k == 1 {
      assert PowerOfTen(1) == 10;
      if n >= 10 { DecimalReads(n / 10); }
    } else if n >= 10 {
      DecimalLength(n / 10, k - 1);
      assert n < 10 * PowerOfTen(k - 1) <==> n / 10 < PowerOfTen(k - 1);
    } else {
      TenIsLeast(k);
    }
  }

  lemma {:induction false} TenIsLeast(k: nat)
    requires k >= 1
    ensures PowerOfTen(k) >= 10
  {
    if k > 1 {
      TenIsLeast(k - 1);
    }
  }

  lemma {:induction false} StrippingSpaces(n: nat, s: Bytes)
    requires s != [] && !IsSpace(s[0])
    ensures Stripped(Spaces(n) + s) == s
  {
    if n == 0 {
      assert Spaces(0) + s == s;
    } else {
      StrippingSpaces(n - 1, s);
      assert (Spaces(n) + s)[1..] == Spaces(n - 1) + s;
    }
  }

  lemma TenDigits()
    ensures PowerOfTen(10) == 10000000000
  {
    assert PowerOfTen(3) == 1000;
    assert PowerOfTen(6) == 1000000;
    assert PowerOfTen(8) == 100000000;
  }

  lemma PaddedSplits(n: nat, width: nat)
    requires |Decimal(n)| <= width
    ensures SplitsAt(Padded(n, width), width - |Decimal(n)|) && |Padded(n, width)| == width
  {
    hide Decimal;
    DecimalReads(n);
    var i, s := width - |Decimal(n)|, Padded(n, width);
    forall j | i <= j < |s| ensures IsDigit(s[j]) {
      assert s[j] == Decimal(n)[j - i];
    }
  }

  /** Every 32-bit number fits the 10 and the 20 characters of the login message, the padded field has the form the
      validator demands, and stripping and reading it gives the number back. */
  lemma PaddedNumbersAreReadBack(n: uint32, width: nat)
    requires width >= 10
    ensures |Decimal(n)| <= width
    ensures |Padded(n, width)| == width && SpacesThenDigits(Padded(n, width))
    ensures var digits := Stripped(Padded(n, width));
            && (forall i :: 0 <= i < |digits| ==> IsDigit(digits[i]))
            && ValueOf(digits) == n
  {
    hide Decimal, Stripped, ValueOf, PowerOfTen, SplitsAt;
    TenDigits();
    DecimalLength(n, 10);
    DecimalReads(n);
    PaddedSplits(n, width);
    assert IsDigit(Decimal(n)[0]);
    StrippingSpaces(width - |Decimal(n)|, Decimal(n));
    assert 0 <= width - |Decimal(n)| < width;
  }
}
