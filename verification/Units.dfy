/** The two humanBytes: internal/flow/console.go and internal/ui/app/app.js. */
module Units {
  const MAX_INT := 0x7FFF_FFFF_FFFF_FFFF

  function Power(e: nat): nat {
    if e == 0 then 1 else 1024 * Power(e - 1)
  }

  /** `exp` is the index of the unit in KMGTPE. */
  predicate IsUnit(n: int, exp: nat) {
    Power(exp + 1) <= n < Power(exp + 2)
  }

  lemma {:induction false} PowerGrows(a: nat, b: nat)
    requires a <= b
    ensures 1 <= Power(a) <= Power(b)
    decreases b
  {
    if a < b {
      PowerGrows(a, b - 1);
    } else if a > 0 {
      PowerGrows(a - 1, a - 1);
    }
  }

  lemma UnitIsUnique(n: int, a: nat, b: nat)
    requires IsUnit(n, a) && IsUnit(n, b)
    ensures a == b
  {
    if a < b {
      PowerGrows(a + 2, b + 1);
    } else if b < a {
      PowerGrows(b + 2, a + 1);
    }
  }

  lemma SixthPower()
    ensures Power(6) <= MAX_INT < Power(7)
  {
    assert Power(3) == 1024 * 1024 * 1024;
    assert Power(6) == 1024 * 1024 * 1024 * Power(3);
    assert Power(7) == 1024 * Power(6);
  }

  lemma UnitOfInt64(n: int, exp: nat)
    requires IsUnit(n, exp) && n <= MAX_INT
    ensures exp <= 5
  {
    SixthPower();
    if exp > 5 {
      PowerGrows(7, exp + 1);
    }
  }

  lemma NextUnit(n: int, m: int, div: int)
    requires m >= 1024 && div > 0 && m * div <= n < (m + 1) * div
    ensures (m / 1024) * (div * 1024) <= n < (m / 1024 + 1) * (div * 1024)
  {
    var q, r := m / 1024, m % 1024;
    assert m == 1024 * q + r && 0 <= r < 1024;
    Regroup(q, div);
    Regroup(q + 1, div);
    MulMonotone(1024 * q, m, div);
    MulMonotone(m + 1, 1024 * (q + 1), div);
  }

  lemma Regroup(q: int, div: int)
    ensures q * (div * 1024) == (1024 * q) * div
  {
  }

  lemma MulMonotone(a: int, b: int, c: int)
    requires a <= b && c > 0
    ensures a * c <= b * c
  {
  }

  /** The console's loop: div ends as the unit's size, never leaves int64, and the index never leaves KMGTPE. */
  method ConsoleUnit(n: int) returns (div: int, exp: nat)
    requires 1024 <= n <= MAX_INT
    ensures div == Power(exp + 1) && div <= n < 1024 * div
    ensures div <= MAX_INT && exp <= 5
  {
    div, exp := 1024, 0;
    var m := n / 1024;
    assert Power(1) == 1024;
    while m >= 1024
      invariant div == Power(exp + 1) && div > 0
      invariant m >= 1 && m * div <= n < (m + 1) * div
      decreases m
    {
      NextUnit(n, m, div);
      div := div * 1024;
      exp := exp + 1;
      m := m / 1024;
    }
    MulMonotone(1, m, div);
    MulMonotone(m + 1, 1024, div);
    UnitOfInt64(n, exp);
  }

  /** The browser's loop divides exactly (a division by 1024 only changes a float's exponent) and stops at T. */
  method BrowserUnit(n: int) returns (i: nat, scaled: real)
    requires n >= 1024
    ensures i <= 3 && scaled * (Power(i + 1) as real) == n as real
    ensures n < Power(5) ==> IsUnit(n, i)
    ensures n >= Power(5) ==> i == 3
  {
    scaled := n as real / 1024.0;
    i := 0;
    ghost var p := 1024;
    while scaled >= 1024.0 && i < 3
      invariant 0 <= i <= 3 && p == Power(i + 1) && p >= 1024
      invariant scaled * (p as real) == n as real
      invariant n >= p
      decreases 3 - i
    {
      assert scaled * (p as real) >= 1024.0 * (p as real);
      scaled := scaled / 1024.0;
      i := i + 1;
      p := 1024 * p;
    }
    if scaled < 1024.0 {
      assert scaled * (p as real) < 1024.0 * (p as real);
      assert n < Power(i + 2);
      PowerGrows(i + 2, 5);
    }
  }

  /** Both show the same unit below 1024^5. */
  lemma SameUnit(n: int, exp: nat, i: nat)
    requires 1024 <= n < Power(5)
    requires IsUnit(n, exp) && (n < Power(5) ==> IsUnit(n, i))
    ensures exp == i
  {
    UnitIsUnique(n, exp, i);
  }
}
