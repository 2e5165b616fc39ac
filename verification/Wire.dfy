/** Reading a packet buffer at an offset, and writing the big-endian fields of network headers. */
module Wire {
  import opened Words

  /** A packet buffer; its length is a kernel int. */
  type Segment = s: Bytes | |s| <= 0x7fff_ffff

  /** bpf_skb_load_bytes succeeds on these n bytes. */
  predicate Loads(skb: Segment, offset: nat, n: nat) {
    offset + n <= |skb|
  }

  function Be16At(skb: Segment, offset: nat): u16
    requires Loads(skb, offset, 2)
  {
    (skb[offset] as int) * 256 + skb[offset + 1]
  }

  function Be16(v: u16): (b: Bytes)
    ensures |b| == 2
  {
    [v / 256, v % 256]
  }

  /** The bytes b stand in the buffer at this offset. */
  ghost predicate At(skb: Bytes, offset: nat, b: Bytes) {
    offset + |b| <= |skb| && skb[offset..offset + |b|] == b
  }

  lemma AtSplit(skb: Bytes, offset: nat, a: Bytes, b: Bytes)
    requires At(skb, offset, a + b)
    ensures At(skb, offset, a) && At(skb, offset + |a|, b)
  {
    var s := skb[offset..offset + |a + b|];
    assert skb[offset..offset + |a|] == s[..|a|];
    assert skb[offset + |a|..offset + |a| + |b|] == s[|a|..];
  }

  lemma AtByte(skb: Bytes, offset: nat, b: Bytes, i: nat)
    requires At(skb, offset, b) && i < |b|
    ensures skb[offset + i] == b[i]
  {
    assert skb[offset..offset + |b|][i] == b[i];
  }

  lemma AtBe16(skb: Segment, offset: nat, v: u16)
    requires At(skb, offset, Be16(v))
    ensures Be16At(skb, offset) == v
  {
    AtByte(skb, offset, Be16(v), 0);
    AtByte(skb, offset, Be16(v), 1);
  }

  lemma AtMiddle(pre: Bytes, b: Bytes, post: Bytes)
    ensures At(pre + b + post, |pre|, b)
  {
    assert (pre + b + post)[|pre|..|pre| + |b|] == b;
  }

  /** A field with a one-byte length, and what follows it. */
  lemma AtVector8(skb: Segment, at: nat, b: Bytes, rest: Bytes)
    requires |b| < 256 && At(skb, at, [|b|] + (b + rest))
    ensures Loads(skb, at, 1) && skb[at] == |b| && At(skb, at + 1 + |b|, rest)
  {
    AtByte(skb, at, [|b|] + (b + rest), 0);
    AtSplit(skb, at, [|b|], b + rest);
    AtSplit(skb, at + 1, b, rest);
  }

  /** A field with a two-byte length, and what follows it. */
  lemma AtVector16(skb: Segment, at: nat, b: Bytes, rest: Bytes)
    requires |b| < U16_LIMIT && At(skb, at, Be16(|b|) + (b + rest))
    ensures Loads(skb, at, 2) && Be16At(skb, at) == |b| && At(skb, at + 2 + |b|, rest)
  {
    AtSplit(skb, at, Be16(|b|), b + rest);
    AtBe16(skb, at, |b|);
    AtSplit(skb, at + 2, b, rest);
  }
}
