/** `FormatSize`: the unit search, on 64-bit integers. */
module Sizes {

  const UNIT := 1024
  const INT64_MAX := 0x7fff_ffff_ffff_ffff
  const UNITS := "KMGTPE"

  function Power(k: nat): (r: nat)
    ensures r > 0
  {
    if k == 0 then 1 else UNIT * Power(k - 1)
  }

  lemma ScaleDown(div: nat, n: nat, bytes: nat)
    requires div * n <= bytes < div * (n + 1)
    ensures (div * UNIT) * (n / UNIT) <= bytes < (div * UNIT) * (n / UNIT + 1)
  {
    var m, r := n / UNIT, n % UNIT;
    assert n == UNIT * m + r;
    assert div * n == (div * UNIT) * m + div * r;
    assert (div * UNIT) * (m + 1) == div * (UNIT * m + UNIT);
    Monotone(div, n + 1, UNIT * m + UNIT);
  }

  lemma Monotone(d: nat, a: nat, b: nat)
    requires a <= b
    ensures d * a <= d * b
  {
  }

  lemma {:induction false} PowerGrows(j: nat, k: nat)
    requires j <= k
    ensures Power(j) <= Power(k)
    decreases k
  {
    if j < k {
      PowerGrows(j, k - 1);
    }
  }

  /** From 1024 bytes up, to the largest 64-bit size: the unit is on the list, the
      divisor is its power of 1024 and never overflows, and the number shown is at
      least one and below 1024. */
  method FindUnit(bytes: nat) returns (div: nat, exp: nat)
    requires UNIT <= bytes <= INT64_MAX
    ensures exp < |UNITS| && div == Power(exp + 1) && div <= INT64_MAX
    ensures div <= bytes < UNIT * div
  {
    div, exp := UNIT, 0;
    var n := bytes / UNIT;
    while n >= UNIT
      invariant div == Power(exp + 1)
      invariant n >= 1 && div * n <= bytes < div * (n + 1)
      decreases n
    {
      ScaleDown(div, n, bytes);
      div := div * UNIT;
      exp := exp + 1;
      n := n / UNIT;
    }
    Monotone(div, 1, n);
    Monotone(div, n + 1, UNIT);
    if exp >= |UNITS| {
      PowerGrows(7, exp + 1);
      SeventhPower();
    }
  }

  lemma SeventhPower()
    ensures Power(7) > INT64_MAX
  {
    assert Power(1) == 1024 && Power(2) == 1024 * 1024;
    assert Power(4) == 0x100_0000_0000;
    assert Power(7) == Power(4) * 1024 * 1024 * 1024;
  }
}
