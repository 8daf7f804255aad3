/** Shared value types: optional values and results in the style of the program's own. */
module Prelude {

  datatype Option<+T> = None | Some(value: T)

  datatype Result<+T, +E> = Ok(value: T) | Err(error: E)

  function Decimal(n: nat): string {
    var digit := ['0' + (n % 10) as char];
    if n < 10 then digit else Decimal(n / 10) + digit
  }

  /** The number a string of digits stands for. */
  function NumberOf(digits: string): int {
    if digits == "" then 0
    else 10 * NumberOf(digits[..|digits| - 1]) + (digits[|digits| - 1] as int - '0' as int)
  }

  /** Decimal notation: only digits, no leading zero, and it reads back as the number. */
  lemma {:induction false} DecimalReadsBack(n: nat)
    ensures NumberOf(Decimal(n)) == n
    ensures forall i :: 0 <= i < |Decimal(n)| ==> '0' <= Decimal(n)[i] <= '9'
    ensures n > 0 ==> Decimal(n)[0] != '0'
    ensures n == 0 ==> Decimal(n) == "0"
  {
    var digit := ['0' + (n % 10) as char];
    if n >= 10 {
      DecimalReadsBack(n / 10);
      assert Decimal(n)[..|Decimal(n)| - 1] == Decimal(n / 10);
    } else {
      assert NumberOf("") == 0 && digit[..0] == "";
    }
  }

  function Min(a: nat, b: nat): nat {
    if a <= b then a else b
  }

  // ----- division with remainder -----

  lemma MulAtLeast(x: int, k: nat)
    requires x >= 1
    ensures x * k >= k
  {
  }

  lemma FactorBelow(k: nat, x: int, y: int)
    requires k >= 1 && k * x < k * y
    ensures x < y
  {
    Distribute(x, -y, k);
    if x > y {
      MulAtLeast(x - y, k);
      assert false;
    }
  }

  lemma QuotientIs(n: nat, k: nat, q: nat, r: nat)
    requires n == q * k + r && r < k
    ensures n / k == q && n % k == r
  {
    var q', r' := n / k, n % k;
    assert (q' - q) * k == r - r';
    if q' > q {
      MulAtLeast(q' - q, k);
      assert false;
    } else if q > q' {
      MulAtLeast(q - q', k);
      assert false;
    }
  }

  lemma QuotientSucc(n: nat, k: nat)
    requires k > 0
    ensures (n + 1) / k == n / k + (if (n + 1) % k == 0 then 1 else 0)
  {
    var q, r := n / k, n % k;
    assert n == q * k + r;
    if r + 1 < k {
      QuotientIs(n + 1, k, q, r + 1);
    } else {
      Distribute(q, 1, k);
      QuotientIs(n + 1, k, q + 1, 0);
    }
  }

  lemma Distribute(x: int, y: int, k: int)
    ensures (x + y) * k == x * k + y * k
  {
  }

  lemma MultiplesNest(a: nat, b: nat, n: nat)
    requires a > 0 && b > 0 && b % a == 0 && n % b == 0
    ensures n % a == 0
  {
    var i, j := b / a, n / b;
    assert n == j * (i * a) == (j * i) * a;
    QuotientIs(n, a, j * i, 0);
  }
}
