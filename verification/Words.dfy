/**
 Machine words of 32 bits as numbers: signs, powers of two and bitwise or.
 */
module Words {
  const WORD: int := 0x1_0000_0000
  const HALF: int := 0x8000_0000

  type Word = x: int | 0 <= x < 0x1_0000_0000

  function Signed(x: int): int {
    if x < HALF then x else x - WORD
  }

  function Pow2(n: int): int {
    if n <= 0 then 1 else 2 * Pow2(n - 1)
  }

  lemma DivMod(a: int, k: int, b: int)
    requires 0 <= b < k
    ensures (a * k + b) / k == a && (a * k + b) % k == b
  {
    Unique(k, a, b, (a * k + b) / k, (a * k + b) % k);
  }

  lemma Scale(d: int, k: int)
    requires k > 0
    ensures d >= 1 ==> d * k >= k
    ensures d <= -1 ==> d * k <= 0 - k
  {
  }

  lemma Unique(k: int, q: int, r: int, q': int, r': int)
    requires 0 <= r < k && 0 <= r' < k && q * k + r == q' * k + r'
    ensures q == q' && r == r'
  {
    var d := q - q';
    assert d * k == r' - r;
    Scale(d, k);
  }

  /** Bitwise or. */
  function Or(a: nat, b: nat): nat {
    if a == 0 && b == 0 then 0
    else (if a % 2 == 1 || b % 2 == 1 then 1 else 0) + 2 * Or(a / 2, b / 2)
  }

  lemma {:induction false} OrZero(b: nat)
    ensures Or(0, b) == b
  {
    if b > 0 { OrZero(b / 2); }
  }

  lemma OrStep(a: nat, c: nat)
    ensures Or(a, 2 * c) == a % 2 + 2 * Or(a / 2, c)
  {
    DivMod(c, 2, 0);
  }

  lemma {:induction false} OrApart(a: nat, b: nat, k: nat)
    requires a < Pow2(k)
    ensures Or(a, Pow2(k) * b) == a + Pow2(k) * b
  {
    hide Or;
    if k == 0 {
      OrZero(b);
    } else {
      var c := Pow2(k - 1) * b;
      assert Pow2(k) * b == 2 * c;
      PowPositive(k - 1);
      assert 0 <= c;
      OrStep(a, c);
      OrApart(a / 2, b, k - 1);
    }
  }

  lemma {:induction false} PowPositive(k: int)
    ensures Pow2(k) > 0
  {
    if k > 0 { PowPositive(k - 1); }
  }
}
