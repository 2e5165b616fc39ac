/** Machine integers of the kernel and Go code, written out over unbounded integers. */
module Words {

  const U16_LIMIT: nat := 0x1_0000
  const U32_LIMIT: nat := 0x1_0000_0000
  const U64_LIMIT: nat := 0x1_0000_0000_0000_0000

  type u8 = x: int | 0 <= x < 0x100
  type u16 = x: int | 0 <= x < 0x1_0000
  type u32 = x: int | 0 <= x < 0x1_0000_0000
  type u64 = x: int | 0 <= x < 0x1_0000_0000_0000_0000

  type Bytes = seq<u8>

  /** A flag word, as the set of the positions of its one bits: `|` is `+`. */
  type Bits = set<nat>

  datatype Option<+T> = None | Some(value: T)

  function Min(a: int, b: int): int { if a < b then a else b }

  function Max(a: int, b: int): int { if a < b then b else a }

  /** What an unsigned variable with `limit` values holds after being assigned x. */
  function Wrap(x: nat, limit: nat): (r: nat)
    requires limit > 0
    ensures r < limit
  {
    if x < limit then x else Wrap(x - limit, limit)
  }

  function Wrap32(x: nat): u32 { Wrap(x, U32_LIMIT) }

  function Wrap64(x: nat): u64 { Wrap(x, U64_LIMIT) }

  lemma {:induction false} WrapIsRemainder(x: nat, limit: nat)
    requires limit > 0
    ensures Wrap(x, limit) == x % limit
  {
    if x >= limit {
      WrapIsRemainder(x - limit, limit);
      RemainderStep(x, limit);
    }
  }

  lemma RemainderStep(x: int, m: int)
    requires m > 0
    ensures x % m == (x - m) % m
  {
    var q, r := (x - m) / m, (x - m) % m;
    MulStep(m, q);
    QuotientUnique(x, q + 1, r, m);
  }

  lemma MulStep(m: int, q: int)
    ensures m * (q + 1) == m * q + m
  {
  }

  lemma QuotientUnique(x: int, q: int, r: int, m: int)
    requires m > 0 && 0 <= r < m && x == m * q + r
    ensures x % m == r && x / m == q
  {
    var d := q - x / m;
    assert m * d == x % m - r;
    MulGap(m, d);
  }

  lemma MulGap(m: int, d: int)
    requires m > 0
    ensures d >= 1 ==> m * d >= m
    ensures d <= -1 ==> m * d <= -m
  {
  }

  /** Wrapping before or after an addition gives the same sum. */
  lemma {:induction false} WrapAdd(a: nat, b: nat, limit: nat)
    requires limit > 0
    ensures Wrap(Wrap(a, limit) + b, limit) == Wrap(a + b, limit)
  {
    if a >= limit {
      WrapAdd(a - limit, b, limit);
    }
  }
}
