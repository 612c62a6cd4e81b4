/** 64-bit unsigned words, and the powers of two that index rings by masking. */
module Words {

  /** One more than the largest 64-bit word. */
  const WORD := 0x1_0000_0000_0000_0000

  /** A counter as a word holds it. */
  function Wrap(k: int): nat {
    k % WORD
  }

  /** The slot of a counter in a ring of c slots. */
  function Slot(k: nat, c: nat): (i: nat)
    ensures c > 0 ==> i < c
  {
    if c > 0 then k % c else 0
  }

  /** The difference of two words, as unsigned subtraction computes it. */
  function Sub(a: int, b: int): int {
    (a - b) % WORD
  }

  function Pow2(e: nat): (r: nat)
    ensures r >= 1
  {
    if e == 0 then 1 else 2 * Pow2(e - 1)
  }

  lemma {:induction false} Pow2Add(a: nat, b: nat)
    ensures Pow2(a + b) == Pow2(a) * Pow2(b)
  {
    if a > 0 {
      Pow2Add(a - 1, b);
      assert Pow2(a + b) == 2 * (Pow2(a - 1) * Pow2(b)) == (2 * Pow2(a - 1)) * Pow2(b);
    }
  }

  lemma WordIsPow2()
    ensures Pow2(64) == WORD
  {
    assert Pow2(8) == 256;
    Pow2Add(8, 8);
    Pow2Add(16, 16);
    Pow2Add(32, 32);
  }

  /** A capacity that a ring with 64-bit counters can have. */
  ghost predicate Capacity(c: nat) {
    exists e: nat :: e < 64 && c == Pow2(e)
  }

  /** The largest power of two that a word holds. */
  const MAX_CAPACITY := 0x8000_0000_0000_0000

  lemma MaxCapacityIsPow2()
    ensures Pow2(63) == MAX_CAPACITY
  {
    WordIsPow2();
  }

  /** `std::bit_ceil`: the least power of two not below n. */
  function BitCeil(n: nat): (c: nat)
    requires n <= MAX_CAPACITY
    ensures n <= c && Capacity(c) && (n > 0 ==> c < 2 * n)
  {
    MaxCapacityIsPow2();
    BitCeilFrom(n, 0)
  }

  function BitCeilFrom(n: nat, e: nat): (c: nat)
    requires n <= Pow2(63) && e <= 63 && (e > 0 ==> Pow2(e - 1) < n)
    ensures n <= c && Capacity(c) && (n > 0 ==> c < 2 * n)
    decreases 63 - e
  {
    if n <= Pow2(e) then Pow2(e) else BitCeilFrom(n, e + 1)
  }

  lemma MultipleIsLarge(m: int, d: int)
    requires m > 0
    ensures d >= 1 ==> m * d >= m
    ensures d <= -1 ==> m * d <= -m
  {
    if d >= 1 {
      assert m * (d - 1) >= 0;
    } else if d <= -1 {
      assert m * (-d - 1) >= 0;
    }
  }

  lemma ModUnique(x: int, m: nat, q: int, r: int)
    requires m > 0 && x == m * q + r && 0 <= r < m
    ensures x % m == r && x / m == q
  {
    var d := x / m - q;
    assert x == m * (x / m) + x % m;
    assert m * d == r - x % m;
    MultipleIsLarge(m, d);
  }

  lemma ModOfSum(m: int, d: int, w: int)
    requires m > 0
    ensures (m * d + w) % m == w % m
  {
    assert w == m * (w / m) + w % m;
    assert m * d + w == m * (d + w / m) + w % m;
    ModUnique(m * d + w, m, d + w / m, w % m);
  }

  lemma TimesAssociates(a: int, b: int, c: int)
    ensures (a * b) * c == a * (b * c)
  {
  }

  /** Reducing a counter to a word first does not change its slot. */
  lemma WrapKeepsSlot(k: nat, c: nat)
    requires Capacity(c)
    ensures c > 0 && Slot(Wrap(k), c) == Slot(k, c)
  {
    var e: nat :| e < 64 && c == Pow2(e);
    var f, q, w := Pow2(64 - e), k / WORD, k % WORD;
    assert WORD == c * f by {
      WordIsPow2();
      Pow2Add(e, 64 - e);
    }
    TimesAssociates(c, f, q);
    ModOfSum(c, f * q, w);
  }

  /** The word difference of two counters less than a word apart is their difference. */
  lemma WrapKeepsDistance(a: nat, b: nat)
    requires b <= a < b + WORD
    ensures Sub(Wrap(a), Wrap(b)) == a - b
    ensures Wrap(a) == Wrap(b) ==> a == b
  {
    var x := a % WORD - b % WORD;
    assert a == WORD * (a / WORD) + a % WORD && b == WORD * (b / WORD) + b % WORD;
    var q := b / WORD - a / WORD;
    assert x == WORD * q + (a - b);
    ModUnique(x, WORD, q, a - b);
  }

  lemma WrapNext(a: nat)
    ensures Wrap(Wrap(a) + 1) == Wrap(a + 1)
  {
    var q, r := a / WORD, a % WORD;
    assert a == WORD * q + r;
    if r + 1 < WORD {
      ModUnique(a + 1, WORD, q, r + 1);
    } else {
      ModUnique(a + 1, WORD, q + 1, 0);
    }
  }

  lemma SlotsRepeat(k: nat, c: nat)
    requires c > 0
    ensures Slot(k + c, c) == Slot(k, c)
  {
    ModOfSum(c, 1, k);
  }

  /** Counters less than c apart have different slots. */
  lemma SlotsDiffer(a: nat, b: nat, c: nat)
    requires a < b < a + c
    ensures Slot(a, c) != Slot(b, c)
  {
    if a % c == b % c {
      assert a == c * (a / c) + a % c && b == c * (b / c) + b % c;
      var d := b / c - a / c;
      assert c * d == b - a;
      MultipleIsLarge(c, d);
    }
  }

  lemma CapacityBounds(c: nat)
    requires Capacity(c)
    ensures 1 <= c < WORD
  {
    var e: nat :| e < 64 && c == Pow2(e);
    WordIsPow2();
    Pow2Add(e, 64 - e);
    var f := Pow2(64 - e);
    assert f == 2 * Pow2(63 - e);
    assert c * f >= c * 2;
  }
}
