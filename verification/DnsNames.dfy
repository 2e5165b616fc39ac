/** Decoding the raw QNAME bytes of a DNS message (pkg/utils/utils.go). */
module DnsNames {
  import opened Words

  type i8 = x: int | -128 <= x < 128

  const DOT: u8 := 46

  function AsByte(x: i8): u8 { if x < 0 then x + 256 else x }

  function AsBytes(raw: seq<i8>): Bytes {
    seq(|raw|, i requires 0 <= i < |raw| => AsByte(raw[i]))
  }

  /** The bytes before the first NUL. */
  function UntilNul(b: Bytes): Bytes {
    if b == [] || b[0] == 0 then [] else [b[0]] + UntilNul(b[1..])
  }

  /** A complete label starts here: not a NUL, not a compression pointer, not cut off. */
  predicate LabelAt(b: Bytes) {
    b != [] && b[0] != 0 && b[0] < 0xC0 && 1 + b[0] <= |b|
  }

  /** The complete labels in front. */
  function Labels(b: Bytes): seq<Bytes> {
    if !LabelAt(b) then [] else [b[1..1 + b[0]]] + Labels(b[1 + b[0]..])
  }

  function Dotted(labels: seq<Bytes>): Bytes {
    if labels == [] then []
    else if |labels| == 1 then labels[0]
    else Dotted(labels[..|labels| - 1]) + [DOT] + labels[|labels| - 1]
  }

  lemma {:induction false} UntilNulIs(b: Bytes, k: nat)
    requires k <= |b| && (forall i :: 0 <= i < k ==> b[i] != 0) && (k == |b| || b[k] == 0)
    ensures UntilNul(b) == b[..k]
  {
    if k > 0 {
      UntilNulIs(b[1..], k - 1);
      assert b[..k] == [b[0]] + b[1..][..k - 1];
    }
  }

  /** The first loop of DNSRawNameToDotted. */
  method CopyUntilNul(raw: seq<i8>) returns (b: Bytes)
    ensures b == UntilNul(AsBytes(raw))
  {
    b := [];
    var k := 0;
    while k < |raw| && raw[k] != 0
      invariant 0 <= k <= |raw| && b == AsBytes(raw)[..k]
      invariant forall i :: 0 <= i < k ==> raw[i] != 0
    {
      b := b + [AsByte(raw[k])];
      k := k + 1;
    }
    UntilNulIs(AsBytes(raw), k);
  }

  /** A complete label starts at i. */
  predicate LabelIn(b: Bytes, i: nat)
    requires i <= |b|
  {
    i < |b| && 0 < b[i] < 0xC0 && i + 1 + (b[i] as int) <= |b|
  }

  /** What the second loop of DNSRawNameToDotted returns from index i on. */
  function JoinFrom(b: Bytes, i: nat, first: bool, out: Bytes): Bytes
    requires i <= |b|
    decreases |b| - i
  {
    if !LabelIn(b, i) then out
    else
      var l := b[i] as int;
      JoinFrom(b, i + 1 + l, false, (if first then out else out + [DOT]) + b[i + 1..i + 1 + l])
  }

  /** The second loop of DNSRawNameToDotted. */
  method JoinLabels(b: Bytes) returns (out: Bytes)
    ensures out == JoinFrom(b, 0, true, [])
  {
    out := [];
    var i, first := 0, true;
    while i < |b|
      invariant 0 <= i <= |b|
      invariant JoinFrom(b, 0, true, []) == JoinFrom(b, i, first, out)
    {
      var l := b[i] as int;
      if l == 0 || l >= 0xC0 {   // a byte with both top bits set is at least 0xC0
        return;
      }
      i := i + 1;
      if i + l > |b| {
        return;
      }
      if !first {
        out := out + [DOT];
      }
      first := false;
      out := out + b[i..i + l];
      i := i + l;
    }
  }

  /** The label at i, and the labels after it. */
  lemma LabelsAt(b: Bytes, i: nat)
    requires i <= |b|
    ensures LabelAt(b[i..]) <==> LabelIn(b, i)
    ensures LabelIn(b, i) ==>
              var l := b[i] as int; Labels(b[i..]) == [b[i + 1..i + 1 + l]] + Labels(b[i + 1 + l..])
  {
    var rest := b[i..];
    if LabelIn(b, i) {
      var l := b[i] as int;
      assert rest[1..1 + l] == b[i + 1..i + 1 + l] && rest[1 + l..] == b[i + 1 + l..];
    }
  }

  lemma Regroup(done: seq<Bytes>, next: Bytes, rest: seq<Bytes>)
    ensures done + ([next] + rest) == (done + [next]) + rest
  {
  }

  lemma DottedStep(done: seq<Bytes>, next: Bytes)
    ensures Dotted(done + [next]) == (if done == [] then Dotted(done) else Dotted(done) + [DOT]) + next
  {
    assert (done + [next])[..|done|] == done;
  }

  /** The loop joins the labels found so far with those in front of it. */
  lemma {:induction false} JoinFromIs(b: Bytes, i: nat, done: seq<Bytes>)
    requires i <= |b|
    ensures JoinFrom(b, i, done == [], Dotted(done)) == Dotted(done + Labels(b[i..]))
    decreases |b| - i
  {
    LabelsAt(b, i);
    if LabelIn(b, i) {
      var l := b[i] as int;
      var next, rest := b[i + 1..i + 1 + l], Labels(b[i + 1 + l..]);
      DottedStep(done, next);
      JoinFromIs(b, i + 1 + l, done + [next]);
      Regroup(done, next, rest);
    } else {
      assert done + [] == done;
    }
  }

  /** DNSRawNameToDotted. */
  method RawNameToDotted(raw: seq<i8>) returns (out: Bytes)
    ensures out == Dotted(Labels(UntilNul(AsBytes(raw))))
  {
    var b := CopyUntilNul(raw);
    if |b| == 0 {
      return [];
    }
    out := JoinLabels(b);
    JoinFromIs(b, 0, []);
    assert b[0..] == b && [] + Labels(b) == Labels(b);
  }

  // ----- What the labels are -----

  function Encode(labels: seq<Bytes>): Bytes
    requires forall i :: 0 <= i < |labels| ==> |labels[i]| < 256
  {
    if labels == [] then [] else [|labels[0]|] + labels[0] + Encode(labels[1..])
  }

  /** A label as section 3.1 of RFC 1035 allows it, without NUL bytes. */
  ghost predicate Label(l: Bytes) {
    1 <= |l| <= 63 && forall i :: 0 <= i < |l| ==> l[i] != 0
  }

  ghost predicate Name(labels: seq<Bytes>) {
    forall i :: 0 <= i < |labels| ==> Label(labels[i])
  }

  /** The labels found are all the complete ones: they fill a prefix of the bytes, after which none starts. */
  lemma {:induction false} LabelsAreMaximal(b: Bytes)
    ensures var ls := Labels(b);
            && (forall i :: 0 <= i < |ls| ==> 1 <= |ls[i]| < 0xC0)
            && |Encode(ls)| <= |b| && b[..|Encode(ls)|] == Encode(ls)
            && NoneStarts(b[|Encode(ls)|..])
    decreases |b|
  {
    if LabelAt(b) {
      var n := 1 + (b[0] as int);
      LabelsAreMaximal(b[n..]);
      EncodeMore(b, Labels(b[n..]));
    }
  }

  /** No complete label starts here: the bytes end, or there is a NUL, a compression pointer, or too little left. */
  ghost predicate NoneStarts(rest: Bytes) {
    rest == [] || rest[0] == 0 || rest[0] >= 0xC0 || |rest| < 1 + (rest[0] as int)
  }

  /** The label in front, and an encoding of what follows it. */
  lemma EncodeMore(b: Bytes, ls: seq<Bytes>)
    requires LabelAt(b) && forall i :: 0 <= i < |ls| ==> |ls[i]| < 256
    requires var rest := b[1 + b[0]..]; |Encode(ls)| <= |rest| && rest[..|Encode(ls)|] == Encode(ls)
    ensures var all, n := [b[1..1 + b[0]]] + ls, 1 + (b[0] as int);
            && |Encode(all)| == n + |Encode(ls)| <= |b| && b[..|Encode(all)|] == Encode(all)
            && b[|Encode(all)|..] == b[n..][|Encode(ls)|..]
  {
    var n := 1 + (b[0] as int);
    var l, rest, e := b[1..n], b[n..], Encode(ls);
    assert ([l] + ls)[1..] == ls;
    assert Encode([l] + ls) == [b[0]] + l + e;
    assert b[..n + |e|] == b[..n] + rest[..|e|];
    assert b[..n] == [b[0]] + l;
  }

  /** Labels of an encoded name followed by something that is not a label. */
  lemma {:induction false} LabelsOfEncoded(labels: seq<Bytes>, rest: Bytes)
    requires Name(labels) && !LabelAt(rest)
    ensures Labels(Encode(labels) + rest) == labels
  {
    if labels == [] {
      assert Encode(labels) + rest == rest;
    } else {
      var l := labels[0];
      assert Label(l);
      LabelsOfEncoded(labels[1..], rest);
      assert Encode(labels) + rest == [|l|] + l + (Encode(labels[1..]) + rest);
      LabelsOfFirst(l, Encode(labels[1..]) + rest);
      assert labels == [l] + labels[1..];
    }
  }

  lemma LabelsOfFirst(l: Bytes, rest: Bytes)
    requires 1 <= |l| <= 63
    ensures Labels([|l|] + l + rest) == [l] + Labels(rest)
  {
    var b := [|l|] + l + rest;
    assert b[1..1 + |l|] == l && b[1 + |l|..] == rest;
  }

  lemma {:induction false} EncodedHasNoNul(labels: seq<Bytes>)
    requires Name(labels)
    ensures forall i :: 0 <= i < |Encode(labels)| ==> Encode(labels)[i] != 0
  {
    if labels != [] {
      assert Label(labels[0]);
      EncodedHasNoNul(labels[1..]);
    }
  }

  lemma {:induction false} UntilNulOf(b: Bytes, rest: Bytes)
    requires (forall i :: 0 <= i < |b| ==> b[i] != 0) && (rest == [] || rest[0] == 0)
    ensures UntilNul(b + rest) == b
  {
    if b == [] {
      assert b + rest == rest;
    } else {
      assert (b + rest)[1..] == b[1..] + rest;
      UntilNulOf(b[1..], rest);
    }
  }

  /** Encoding a name and decoding it gives its dotted form, whatever follows the terminating NUL. */
  lemma {:induction false} RoundTrip(labels: seq<Bytes>, rest: Bytes)
    requires Name(labels) && (rest == [] || rest[0] == 0)
    ensures Dotted(Labels(UntilNul(Encode(labels) + rest))) == Dotted(labels)
  {
    EncodedHasNoNul(labels);
    UntilNulOf(Encode(labels), rest);
    LabelsOfEncoded(labels, []);
    assert Encode(labels) + [] == Encode(labels);
  }

  /** `found` is as many of the labels as have their whole encoding in the first n bytes. */
  ghost predicate FirstThatFit(found: seq<Bytes>, labels: seq<Bytes>, n: nat)
    requires Name(labels)
  {
    && found <= labels && |Encode(labels[..|found|])| <= n
    && (|found| < |labels| ==> |Encode(labels[..|found| + 1])| > n)
  }

  lemma FirstThatFitStep(found: seq<Bytes>, labels: seq<Bytes>, n: nat)
    requires labels != [] && Name(labels) && n > |labels[0]| && FirstThatFit(found, labels[1..], n - 1 - |labels[0]|)
    ensures FirstThatFit([labels[0]] + found, labels, n)
  {
    var k, more := |found|, labels[1..];
    assert labels[..k + 1][1..] == more[..k];
    if k < |more| {
      assert labels[..k + 2][1..] == more[..k + 1];
    }
    assert [labels[0]] + found <= labels by {
      assert labels == [labels[0]] + more;
    }
  }

  lemma NoneFit(labels: seq<Bytes>, n: nat)
    requires labels != [] && Name(labels) && n <= |labels[0]|
    ensures FirstThatFit([], labels, n)
  {
    assert labels[..0] == [] && labels[..1][1..] == labels[1..1] == [];
  }

  lemma {:induction false} CutLabels(labels: seq<Bytes>, n: nat)
    requires Name(labels) && n <= |Encode(labels)|
    ensures FirstThatFit(Labels(Encode(labels)[..n]), labels, n)
  {
    if labels == [] {
      assert labels[..0] == [];
    } else {
      var l := labels[0];
      assert Label(l);
      var b, m := Encode(labels), 1 + |l|;
      assert b == [|l|] + l + Encode(labels[1..]);
      if n >= m {
        var t := b[..n];
        assert t[1..m] == l && t[m..] == Encode(labels[1..])[..n - m] && t[0] == |l|;
        CutLabels(labels[1..], n - m);
        FirstThatFitStep(Labels(t[m..]), labels, n);
      } else {
        NoneFit(labels, n);
      }
    }
  }

  /** A copy cut off after n bytes decodes to the dotted form of exactly the labels that fit in them. */
  lemma {:induction false} CutCopy(labels: seq<Bytes>, n: nat, rest: Bytes)
    requires Name(labels) && n <= |Encode(labels)| && (rest == [] || rest[0] == 0)
    ensures FirstThatFit(Labels(UntilNul(Encode(labels)[..n] + rest)), labels, n)
  {
    EncodedHasNoNul(labels);
    UntilNulOf(Encode(labels)[..n], rest);
    CutLabels(labels, n);
  }

  // ----- The dotted form -----

  /** Cutting at every dot. */
  function Cut(b: Bytes): (r: seq<Bytes>)
    ensures r != []
  {
    if b == [] then [[]]
    else
      var front, last := Cut(b[..|b| - 1]), b[|b| - 1];
      if last == 46 then front + [[]] else front[..|front| - 1] + [front[|front| - 1] + [last]]
  }

  lemma {:induction false} CutLabel(b: Bytes, l: Bytes)
    requires forall i :: 0 <= i < |l| ==> l[i] != 46
    ensures Cut(b + [46] + l) == Cut(b) + [l]
  {
    var all := b + [46] + l;
    if l == [] {
      assert all == b + [46] && all[..|all| - 1] == b;
    } else {
      var n := |l| - 1;
      assert all[..|all| - 1] == b + [46] + l[..n];
      CutLabel(b, l[..n]);
      assert (Cut(b) + [l[..n]])[..|Cut(b)|] == Cut(b);
      assert l == l[..n] + [l[n]];
    }
  }

  lemma {:induction false} CutOne(l: Bytes)
    requires forall i :: 0 <= i < |l| ==> l[i] != 46
    ensures Cut(l) == [l]
  {
    if l != [] {
      CutOne(l[..|l| - 1]);
      assert l == l[..|l| - 1] + [l[|l| - 1]];
      assert [l[..|l| - 1]][..0] == [];
    }
  }

  /** Labels without dots can be read back from the dotted form: they are what lies between the dots. */
  lemma {:induction false} CutDotted(labels: seq<Bytes>)
    requires labels != [] && forall i, j :: 0 <= i < |labels| && 0 <= j < |labels[i]| ==> labels[i][j] != 46
    ensures Cut(Dotted(labels)) == labels
  {
    var n := |labels| - 1;
    if n == 0 {
      CutOne(labels[0]);
    } else {
      CutDotted(labels[..n]);
      CutLabel(Dotted(labels[..n]), labels[n]);
      assert labels == labels[..n] + [labels[n]];
    }
  }

  // ----- The raw bytes -----

  /** The bytes as the signed numbers that Go sees. */
  function Raw(b: Bytes): seq<i8> {
    seq(|b|, i requires 0 <= i < |b| => if b[i] < 128 then b[i] else (b[i] as int) - 256)
  }

  lemma RawIsBytes(b: Bytes)
    ensures AsBytes(Raw(b)) == b
  {
  }

  /** DNSRawNameToDotted on the raw bytes of an encoded name. */
  method DecodeRaw(raw: seq<i8>, ghost labels: seq<Bytes>, ghost rest: Bytes) returns (out: Bytes)
    requires Name(labels) && (rest == [] || rest[0] == 0) && raw == Raw(Encode(labels) + rest)
    ensures out == Dotted(labels)
  {
    out := RawNameToDotted(raw);
    RawIsBytes(Encode(labels) + rest);
    RoundTrip(labels, rest);
  }
}
