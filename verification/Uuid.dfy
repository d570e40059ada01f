/** 128-bit identifiers and their hexadecimal texts. */
module Uuid {
  import opened Text

  const TWO_48: nat := 0x1_0000_0000_0000
  const TWO_128: nat := 0x1_0000_0000_0000_0000_0000_0000_0000_0000

  type Id = n: nat | n < TWO_128

  function Pow16(width: nat): (r: nat)
    ensures r > 0
  {
    if width == 0 then 1 else 16 * Pow16(width - 1)
  }

  predicate IsLowerHex(c: char) { '0' <= c <= '9' || 'a' <= c <= 'f' }

  predicate IsHex(c: char) { IsLowerHex(c) || 'A' <= c <= 'F' }

  function DigitValue(c: char): (r: nat)
    requires IsHex(c)
    ensures r < 16
  {
    if c <= '9' then c as int - '0' as int
    else if c <= 'F' then c as int - 'A' as int + 10
    else c as int - 'a' as int + 10
  }

  function Digit(n: nat): (c: char)
    requires n < 16
    ensures IsLowerHex(c) && DigitValue(c) == n
  {
    if n < 10 then (n + '0' as int) as char else (n - 10 + 'a' as int) as char
  }

  /** The low `width` hexadecimal digits of `n`, most significant first. */
  function Hex(n: nat, width: nat): (s: string)
    ensures |s| == width
    ensures forall c <- s :: IsLowerHex(c)
  {
    if width == 0 then "" else Hex(n / 16, width - 1) + [Digit(n % 16)]
  }

  function HexValue(s: string): (n: nat)
    requires forall c <- s :: IsHex(c)
    ensures n < Pow16(|s|)
  {
    if s == "" then 0
    else 16 * HexValue(s[..|s| - 1]) + DigitValue(s[|s| - 1])
  }

  lemma {:induction false} HexValueOfHex(n: nat, width: nat)
    requires n < Pow16(width)
    ensures HexValue(Hex(n, width)) == n
  {
    if width > 0 {
      HexValueOfHex(n / 16, width - 1);
      var s := Hex(n, width);
      assert s[..|s| - 1] == Hex(n / 16, width - 1);
    }
  }

  lemma Pow16Of32()
    ensures Pow16(32) == TWO_128
  {
    assert Pow16(8) == 0x1_0000_0000;
    assert Pow16(16) == 0x1_0000_0000_0000_0000 by { Pow16Sum(8, 8); }
    Pow16Sum(16, 16);
  }

  lemma {:induction false} Pow16Sum(a: nat, b: nat)
    ensures Pow16(a + b) == Pow16(a) * Pow16(b)
  {
    if a > 0 {
      Pow16Sum(a - 1, b);
      assert 16 * (Pow16(a - 1) * Pow16(b)) == (16 * Pow16(a - 1)) * Pow16(b);
    }
  }

  /** Thirty-two digits determine the identifier. */
  lemma HexInjective(m: Id, n: Id)
    requires Hex(m, 32) == Hex(n, 32)
    ensures m == n
  {
    Pow16Of32();
    HexValueOfHex(m, 32);
    HexValueOfHex(n, 32);
  }

  /** `str(uuid)`: 8-4-4-4-12 lowercase digits. */
  function Canonical(n: Id): string {
    var h := Hex(n, 32);
    h[..8] + "-" + h[8..12] + "-" + h[12..16] + "-" + h[16..20] + "-" + h[20..]
  }

  function WithoutDashes(s: string): string {
    if s == "" then ""
    else if s[0] == '-' then WithoutDashes(s[1..])
    else [s[0]] + WithoutDashes(s[1..])
  }

  /**
   * `UUID(text)`: dashes anywhere are dropped and either letter case is accepted. The braced, URN and
   * underscored spellings that Python also reads are left out: every caller compares the result's
   * canonical text with the input, which refuses them.
   */
  function ParseLoose(s: string): Option<Id> {
    var h := WithoutDashes(s);
    if |h| == 32 && forall c <- h :: IsHex(c) then
      Pow16Of32();
      Some(HexValue(h))
    else None
  }

  lemma {:induction false} WithoutDashesConcat(a: string, b: string)
    ensures WithoutDashes(a + b) == WithoutDashes(a) + WithoutDashes(b)
  {
    if a == "" {
      assert a + b == b;
    } else {
      assert (a + b)[1..] == a[1..] + b;
      WithoutDashesConcat(a[1..], b);
    }
  }

  lemma {:induction false} WithoutDashesUndashed(s: string)
    requires '-' !in s
    ensures WithoutDashes(s) == s
  {
    if s != "" {
      assert s[0] in s && forall c <- s[1..] :: c in s;
      WithoutDashesUndashed(s[1..]);
      assert s == [s[0]] + s[1..];
    }
  }

  lemma DashThenDigits(before: string, digits: string)
    requires '-' !in digits
    ensures WithoutDashes(before + "-" + digits) == WithoutDashes(before) + digits
  {
    WithoutDashesConcat(before + "-", digits);
    WithoutDashesConcat(before, "-");
    WithoutDashesUndashed(digits);
    assert WithoutDashes("-") == "";
  }

  lemma ParseLooseOfCanonical(n: Id)
    ensures ParseLoose(Canonical(n)) == Some(n)
  {
    var h := Hex(n, 32);
    var a, b, c, d, e := h[..8], h[8..12], h[12..16], h[16..20], h[20..];
    assert forall x <- h :: x != '-';
    assert forall x <- a :: x in h;
    assert forall x <- b :: x in h;
    assert forall x <- c :: x in h;
    assert forall x <- d :: x in h;
    assert forall x <- e :: x in h;
    WithoutDashesUndashed(a);
    DashThenDigits(a, b);
    DashThenDigits(a + "-" + b, c);
    DashThenDigits(a + "-" + b + "-" + c, d);
    DashThenDigits(a + "-" + b + "-" + c + "-" + d, e);
    assert a + b + c + d + e == h;
    Pow16Of32();
    HexValueOfHex(n, 32);
  }
}
