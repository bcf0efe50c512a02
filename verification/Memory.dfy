// The flat, byte-addressed memory the allocator works in. Pointers are 8-byte
// little-endian words stored inside that memory, home tags are 2-byte ones, so a
// link, a tag and user data that share bytes really do overwrite each other.
module Memory {
  type byte = b: int | 0 <= b < 256

  type Mem = int -> byte

  const NULL := 0
  const PTR_SIZE := 8
  const TAG_SIZE := 2

  // User-mode addresses of the 64-bit platform lie below this limit.
  const ADDRESS_LIMIT := 0x8000_0000_0000

  function Pow256(n: nat): (p: nat)
    ensures p > 0
  {
    if n == 0 then 1 else 256 * Pow256(n - 1)
  }

  // The k-th least significant byte of v, in two's complement when v is negative.
  function Digit(v: int, k: nat): byte
    decreases k
  {
    if k == 0 then v % 256 else Digit(v / 256, k - 1)
  }

  // The n-byte little-endian number at address a.
  function Load(m: Mem, a: int, n: nat): (v: nat)
    ensures v < Pow256(n)
    decreases n
  {
    if n == 0 then 0 else m(a) + 256 * Load(m, a + 1, n - 1)
  }

  function Store(m: Mem, a: int, n: nat, v: int): Mem
  {
    (i: int) => if a <= i < a + n then Digit(v, i - a) else m(i)
  }

  function Word(m: Mem, a: int): nat
  {
    Load(m, a, PTR_SIZE)
  }

  function SetWord(m: Mem, a: int, w: int): Mem
  {
    Store(m, a, PTR_SIZE, w)
  }

  predicate Address(a: int)
  {
    0 <= a < ADDRESS_LIMIT
  }

  // The two memories hold the same bytes in [lo, hi).
  ghost predicate Same(m: Mem, m': Mem, lo: int, hi: int)
  {
    forall i :: lo <= i < hi ==> m(i) == m'(i)
  }

  // [a, a+n) and [b, b+k) share no byte.
  predicate Apart(a: int, n: int, b: int, k: int)
  {
    a + n <= b || b + k <= a
  }

  lemma {:induction false} LoadSame(m: Mem, m': Mem, a: int, n: nat)
    requires Same(m, m', a, a + n)
    ensures Load(m, a, n) == Load(m', a, n)
    decreases n
  {
    if n > 0 {
      LoadSame(m, m', a + 1, n - 1);
    }
  }

  lemma {:induction false} LoadDigits(m: Mem, a: int, n: nat, v: nat)
    requires v < Pow256(n)
    requires forall i :: 0 <= i < n ==> m(a + i) == Digit(v, i)
    ensures Load(m, a, n) == v
    decreases n
  {
    if n > 0 {
      forall i | 0 <= i < n - 1
        ensures m(a + 1 + i) == Digit(v / 256, i)
      {
        assert m(a + (i + 1)) == Digit(v, i + 1);
      }
      LoadDigits(m, a + 1, n - 1, v / 256);
      assert m(a + 0) == Digit(v, 0);
    }
  }

  // What was stored is what is loaded.
  lemma LoadStore(m: Mem, a: int, n: nat, v: nat)
    requires v < Pow256(n)
    ensures Load(Store(m, a, n, v), a, n) == v
  {
    LoadDigits(Store(m, a, n, v), a, n, v);
  }

  // A store elsewhere is not seen.
  lemma LoadStoreApart(m: Mem, a: int, n: nat, v: int, b: int, k: nat)
    requires Apart(a, n, b, k)
    ensures Load(Store(m, a, n, v), b, k) == Load(m, b, k)
  {
    LoadSame(Store(m, a, n, v), m, b, k);
  }

  lemma WordLimit()
    ensures ADDRESS_LIMIT < Pow256(PTR_SIZE)
    ensures 64 < Pow256(TAG_SIZE)
  {
    assert Pow256(2) == 65536;
    assert Pow256(4) == 65536 * 65536;
    assert Pow256(6) == 65536 * 65536 * 65536;
  }

  lemma WordSetWord(m: Mem, a: int, w: int)
    requires Address(w)
    ensures Word(SetWord(m, a, w), a) == w
  {
    WordLimit();
    LoadStore(m, a, PTR_SIZE, w);
  }

  lemma WordSetWordApart(m: Mem, a: int, w: int, b: int)
    requires Apart(a, PTR_SIZE, b, PTR_SIZE)
    ensures Word(SetWord(m, a, w), b) == Word(m, b)
  {
    LoadStoreApart(m, a, PTR_SIZE, w, b, PTR_SIZE);
  }
}
