/** The two wrap-detecting 16-bit additions: one in the kernel code, one in the Go code. */
module Saturating {
  import opened Words

  const MAX16: u16 := 65535

  /** A total as a 16-bit counter should show it. */
  function Cap(x: nat): u16 { if x > 65535 then 65535 else x }

  /** add_len_u16: add wraps into a u16, and a sum smaller than what was added shows that it wrapped. */
  function AddLen(old_: u16, add: u64): u16 {
    if add > 65535 then MAX16
    else
      var n := ((old_ as int) + add) % 65536;
      if n < add then MAX16 else n
  }

  /** addUint16. */
  function AddUint16(a: u16, b: u16): u16 {
    var s := ((a as int) + b) % 65536;
    if s < a then MAX16 else s
  }

  /** Both are the same saturating sum. */
  lemma AddsSaturate(a: u16, b: u64)
    ensures AddLen(a, b) == Cap(a + b)
    ensures b <= 65535 ==> AddUint16(a, b) == Cap(a + b)
  {
    if b <= 65535 {
      var s := (a as int) + b;
      assert s % 65536 == if s < 65536 then s else s - 65536;
    }
  }

  /** Capping parts before summing changes nothing once the sum is capped. */
  lemma CapAdd(a: nat, b: nat)
    ensures Cap(Cap(a) + b) == Cap(a + b)
    ensures Cap(Cap(a) + Cap(b)) == Cap(a + b)
  {
  }

  lemma AddsCommute(d: u16, a: u16, b: u16)
    ensures AddUint16(a, b) == AddUint16(b, a)
    ensures AddUint16(AddUint16(d, a), b) == AddUint16(AddUint16(d, b), a)
  {
    AddsSaturate(a, b);
    AddsSaturate(b, a);
    AddsSaturate(d, a);
    AddsSaturate(d, b);
    AddsSaturate(Cap(d + a), b);
    AddsSaturate(Cap(d + b), a);
  }
}
