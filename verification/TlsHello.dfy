/**
 * ClientHello and ServerHello messages as sections 4.1.2, 4.1.3 and 4.2 of RFC 8446 lay them out, and
 * what the parser makes of them.
 */
module TlsHello {
  import opened Words
  import opened Flows
  import opened Wire
  import opened TlsTracker

  datatype AnyExtension = Extension(kind: u16, body: Bytes)

  /** An extension whose length fits its length field. */
  type Extension = e: AnyExtension | |e.body| < U16_LIMIT witness Extension(0, [])

  // ----- Printing -----

  function PrintExtension(e: Extension): (b: Bytes)
    ensures |b| == 4 + |e.body|
  {
    Be16(e.kind) + Be16(|e.body|) + e.body
  }

  function PrintExtensions(es: seq<Extension>): Bytes {
    if es == [] then [] else PrintExtension(es[0]) + PrintExtensions(es[1..])
  }

  function PrintVersions(vs: seq<u16>): (b: Bytes)
    ensures |b| == 2 * |vs|
  {
    if vs == [] then [] else Be16(vs[0]) + PrintVersions(vs[1..])
  }

  /** The supported_versions extension of a ClientHello: one length byte, then the versions. */
  function VersionsBody(vs: seq<u16>): Bytes
    requires 1 <= |vs| <= 127
  {
    [2 * |vs|] + PrintVersions(vs)
  }

  datatype Client = Client(
    random: Bytes, session: Bytes, ciphers: Bytes, compression: Bytes, extensions: seq<Extension>)

  ghost predicate ClientFits(h: Client) {
    && |h.random| == 32 && |h.session| < 256 && |h.ciphers| < U16_LIMIT && |h.compression| < 256
    && |PrintExtensions(h.extensions)| < U16_LIMIT
  }

  /** Legacy version 1.2, random, session id, cipher suites, compression methods, extensions. */
  ghost function PrintClient(h: Client): Bytes
    requires ClientFits(h)
  {
    Be16(0x0303) + (h.random + ([|h.session|] + (h.session + (Be16(|h.ciphers|) + (h.ciphers
      + ([|h.compression|] + (h.compression
      + (Be16(|PrintExtensions(h.extensions)|) + PrintExtensions(h.extensions)))))))))
  }

  datatype Server = Server(random: Bytes, session: Bytes, cipher: u16, compression: u8, extensions: seq<Extension>)

  ghost predicate ServerFits(h: Server) {
    && |h.random| == 32 && |h.session| < 256
    && |PrintExtensions(h.extensions)| < U16_LIMIT
  }

  ghost function PrintServer(h: Server): Bytes
    requires ServerFits(h)
  {
    Be16(0x0303) + (h.random + ([|h.session|] + (h.session + (Be16(h.cipher) + ([h.compression]
      + (Be16(|PrintExtensions(h.extensions)|) + PrintExtensions(h.extensions)))))))
  }

  /** A handshake message of this type inside a record of this version, as section 5.1 lays it out. */
  function PrintRecord(version: u16, recordLen: u16, handshake: u8, messageLen: Bytes, message: Bytes): Bytes
    requires |messageLen| == 3
  {
    [0x16] + (Be16(version) + (Be16(recordLen) + ([handshake] + (messageLen + message))))
  }

  // ----- Walking the extensions -----

  /** The offset of extension i in the block. */
  function Off(es: seq<Extension>, i: nat): nat
    requires i <= |es|
  {
    |PrintExtensions(es[..i])|
  }

  /** Extension i stands at its offset, and the next one follows it. */
  lemma {:induction false} ExtensionAt(skb: Segment, base: nat, es: seq<Extension>, i: nat)
    requires i < |es| && At(skb, base, PrintExtensions(es))
    ensures At(skb, base + Off(es, i), PrintExtension(es[i]))
    ensures Off(es, i + 1) == Off(es, i) + 4 + |es[i].body| <= |PrintExtensions(es)|
    decreases i
  {
    var e, rest := es[0], es[1..];
    AtSplit(skb, base, PrintExtension(e), PrintExtensions(rest));
    if i == 0 {
      assert es[..0] == [] && es[..1] == [e] && [e][1..] == [];
    } else {
      ExtensionAt(skb, base + |PrintExtension(e)|, rest, i - 1);
      assert es[..i][1..] == rest[..i - 1] && es[..i + 1][1..] == rest[..i];
    }
  }

  /** What the parser loads at extension i, with offsets that do not wrap. */
  ghost predicate HeaderRead(skb: Segment, base: nat, es: seq<Extension>, i: nat)
    requires i < |es|
  {
    var off, e := Off(es, i), es[i];
    && Loads(skb, base + off, 4) && Be16At(skb, base + off) == e.kind && Be16At(skb, base + off + 2) == |e.body|
    && off + 4 + |e.body| == Off(es, i + 1) <= |PrintExtensions(es)| < U16_LIMIT
    && At(skb, base + off + 4, e.body)
  }

  lemma HeaderAt(skb: Segment, base: nat, es: seq<Extension>, i: nat)
    requires i < |es| && At(skb, base, PrintExtensions(es)) && |PrintExtensions(es)| < U16_LIMIT
    ensures HeaderRead(skb, base, es, i)
  {
    ExtensionAt(skb, base, es, i);
    var e, at := es[i], base + Off(es, i);
    AtSplit(skb, at, Be16(e.kind) + Be16(|e.body|), e.body);
    AtSplit(skb, at, Be16(e.kind), Be16(|e.body|));
    AtBe16(skb, at, e.kind);
    AtBe16(skb, at + 2, |e.body|);
  }

  /**
   * From the extension header at base + off on, the 16-bit offset of the loops stays below 65536 over all
   * turns that are left: none of the sums wraps.
   */
  ghost predicate Straight(skb: Segment, base: nat, off: nat, extsLen: nat, i: nat)
    requires i <= MAX_EXTENSIONS
    decreases MAX_EXTENSIONS - i, skb, base
  {
    || i == MAX_EXTENSIONS || off >= extsLen || !Loads(skb, base + off, 4)
    || (off + 4 + Be16At(skb, base + off + 2) < U16_LIMIT
        && Straight(skb, base, off + 4 + Be16At(skb, base + off + 2), extsLen, i + 1))
  }

  lemma {:induction false} StraightRead(skb: Segment, base: nat, es: seq<Extension>, i: nat)
    requires At(skb, base, PrintExtensions(es)) && |PrintExtensions(es)| < U16_LIMIT && i <= MAX_EXTENSIONS && i <= |es|
    ensures Straight(skb, base, Off(es, i), |PrintExtensions(es)|, i)
    decreases MAX_EXTENSIONS - i
  {
    if i == |es| {
      assert es[..i] == es;
    } else if i < MAX_EXTENSIONS {
      HeaderAt(skb, base, es, i);
      StraightRead(skb, base, es, i + 1);
    }
  }

  /** Where the first extension of this kind is, or the number of extensions. */
  function IndexOf(es: seq<Extension>, kind: u16): (k: nat)
    ensures k <= |es| && (k < |es| ==> es[k].kind == kind)
    ensures forall i :: 0 <= i < k ==> es[i].kind != kind
  {
    if es == [] || es[0].kind == kind then 0
    else
      var k := IndexOf(es[1..], kind);
      assert forall i :: 1 <= i < k + 1 ==> es[i] == es[1..][i - 1];
      k + 1
  }

  // ----- ClientHello -----

  ghost predicate SomeKnown(vs: seq<u16>) {
    exists w :: w in vs && 0x0300 <= w <= 0x0304
  }

  /** No known version of vs is above v, and when `all` no other either. */
  ghost predicate Tops(vs: seq<u16>, v: u16, all: bool) {
    forall w :: w in vs && (all || 0x0300 <= w <= 0x0304) ==> w <= v
  }

  /** The version a ClientHello offers best: the highest known one, or the highest when none is known. */
  ghost predicate Best(vs: seq<u16>, v: u16) {
    && v in vs
    && if SomeKnown(vs) then 0x0300 <= v <= 0x0304 && Tops(vs, v, false) else Tops(vs, v, true)
  }

  /** Offering the versions one by one. */
  function Offer(vs: seq<u16>): (u16, bool) {
    if vs == [] then (0, false)
    else
      var (best, known) := Offer(vs[..|vs| - 1]);
      Prefer(best, known, vs[|vs| - 1])
  }

  /** What is kept of the versions offered so far. */
  ghost predicate Keeps(vs: seq<u16>, v: u16, known: bool) {
    && (known <==> SomeKnown(vs))
    && (if vs == [] then v == 0 else Best(vs, v))
  }

  lemma KnownGrows(front: seq<u16>, x: u16)
    ensures SomeKnown(front + [x]) <==> SomeKnown(front) || KnownExt(x)
  {
    assert x in front + [x];
    assert forall w :: w in front ==> w in front + [x];
  }

  lemma TopsGrows(front: seq<u16>, x: u16, v: u16, all: bool)
    ensures Tops(front + [x], v, all) <==> Tops(front, v, all) && (all || KnownExt(x) ==> x <= v)
  {
    assert x in front + [x];
    assert forall w :: w in front ==> w in front + [x];
  }

  /** Offering one more version keeps the best. */
  lemma PreferKeeps(front: seq<u16>, v: u16, known: bool, x: u16)
    requires Keeps(front, v, known)
    ensures Keeps(front + [x], Prefer(v, known, x).0, Prefer(v, known, x).1)
  {
    var v' := Prefer(v, known, x).0;
    KnownGrows(front, x);
    TopsGrows(front, x, v', false);
    TopsGrows(front, x, v', true);
    assert x in front + [x] && (v in front ==> v in front + [x]);
  }

  lemma {:induction false} OfferKeepsBest(vs: seq<u16>)
    ensures Keeps(vs, Offer(vs).0, Offer(vs).1)
  {
    if vs != [] {
      var n := |vs| - 1;
      OfferKeepsBest(vs[..n]);
      PreferKeeps(vs[..n], Offer(vs[..n]).0, Offer(vs[..n]).1, vs[n]);
      assert vs == vs[..n] + [vs[n]];
    }
  }

  lemma {:induction false} VersionAt(skb: Segment, at: nat, vs: seq<u16>, j: nat)
    requires j < |vs| && At(skb, at, PrintVersions(vs))
    ensures Loads(skb, at + 2 * j, 2) && Be16At(skb, at + 2 * j) == vs[j]
    decreases j
  {
    AtSplit(skb, at, Be16(vs[0]), PrintVersions(vs[1..]));
    if j == 0 {
      AtBe16(skb, at, vs[0]);
    } else {
      VersionAt(skb, at + 2, vs[1..], j - 1);
    }
  }

  lemma {:induction false} VersionsWalk(skb: Segment, body: nat, vs: seq<u16>, j: nat)
    requires 1 <= |vs| <= 127 && j <= MAX_VERSIONS && j <= |vs| && At(skb, body, VersionsBody(vs))
    ensures Versions(skb, body, 1 + 2 * |vs|, j, Offer(vs[..j]).0, Offer(vs[..j]).1)
            == Parsed(Matched, TlsInfo(Offer(vs[..Min(MAX_VERSIONS, |vs|)]).0, 0, 0, CLIENT_HELLO))
    decreases MAX_VERSIONS - j
  {
    if j < MAX_VERSIONS && j < |vs| {
      AtSplit(skb, body, [2 * |vs|], PrintVersions(vs));
      VersionAt(skb, body + 1, vs, j);
      assert vs[..j + 1][..j] == vs[..j];
      VersionsWalk(skb, body, vs, j + 1);
    }
  }

  /** Every supported_versions extension has the form the RFC gives it. */
  ghost predicate VersionsFormed(es: seq<Extension>) {
    forall i :: 0 <= i < |es| && es[i].kind == 0x002b ==>
      exists vs: seq<u16> :: 1 <= |vs| <= 127 && es[i].body == VersionsBody(vs)
  }

  /** One turn of the loop over an extension of another kind moves to the next one. */
  lemma ClientTurn(skb: Segment, base: nat, es: seq<Extension>, i: nat)
    requires i < |es| && i < MAX_EXTENSIONS && HeaderRead(skb, base, es, i) && es[i].kind != SUPPORTED_VERSIONS
    ensures ClientExtensions(skb, base, Off(es, i), |PrintExtensions(es)|, i)
            == ClientExtensions(skb, base, Off(es, i + 1), |PrintExtensions(es)|, i + 1)
  {
  }

  lemma {:induction false} ClientWalk(skb: Segment, base: nat, es: seq<Extension>, i: nat, k: nat)
    requires At(skb, base, PrintExtensions(es)) && |PrintExtensions(es)| < U16_LIMIT
    requires i <= k <= MAX_EXTENSIONS && k <= IndexOf(es, SUPPORTED_VERSIONS)
    ensures Off(es, i) < U16_LIMIT && Off(es, k) < U16_LIMIT
    ensures ClientExtensions(skb, base, Off(es, i), |PrintExtensions(es)|, i)
            == ClientExtensions(skb, base, Off(es, k), |PrintExtensions(es)|, k)
    decreases k - i
  {
    if i < k {
      HeaderAt(skb, base, es, i);
      ClientTurn(skb, base, es, i);
      ClientWalk(skb, base, es, i + 1, k);
    } else if i < |es| {
      HeaderAt(skb, base, es, i);
    } else {
      assert es[..i] == es;
    }
  }

  /** What the parser should report for these extensions. */
  ghost predicate ClientVersion(es: seq<Extension>, v: u16) {
    var k := IndexOf(es, 0x002b);
    if k < |es| && k < 30
    then exists vs: seq<u16> :: 1 <= |vs| <= 127 && es[k].body == VersionsBody(vs)
                                && Best(vs[..Min(5, |vs|)], v)
    else v == 0x0303
  }

  ghost predicate ClientReport(p: Parsed, es: seq<Extension>) {
    && p.verdict == Matched
    && p.tls == TlsInfo(p.tls.helloVersion, 0, 0, {0})
    && ClientVersion(es, p.tls.helloVersion)
  }

  lemma ClientExtensionsRead(skb: Segment, base: nat, es: seq<Extension>)
    requires VersionsFormed(es) && At(skb, base, PrintExtensions(es)) && |PrintExtensions(es)| < U16_LIMIT
    ensures ClientReport(ClientExtensions(skb, base, Off(es, 0), |PrintExtensions(es)|, 0), es)
  {
    var k := IndexOf(es, SUPPORTED_VERSIONS);
    if k < MAX_EXTENSIONS {
      ClientWalk(skb, base, es, 0, k);
      if k < |es| {
        VersionsHit(skb, base, es, k);
      } else {
        assert es[..k] == es;
      }
    } else {
      ClientWalk(skb, base, es, 0, MAX_EXTENSIONS);
    }
  }

  lemma VersionsHit(skb: Segment, base: nat, es: seq<Extension>, k: nat)
    requires VersionsFormed(es) && At(skb, base, PrintExtensions(es)) && |PrintExtensions(es)| < U16_LIMIT
    requires k == IndexOf(es, SUPPORTED_VERSIONS) && k < |es| && k < MAX_EXTENSIONS && Off(es, k) < U16_LIMIT
    ensures ClientReport(ClientExtensions(skb, base, Off(es, k), |PrintExtensions(es)|, k), es)
  {
    HeaderAt(skb, base, es, k);
    var vs := FormedBody(es, k);
    VersionsHitRead(skb, base, es, k, vs);
  }

  lemma FormedBody(es: seq<Extension>, k: nat) returns (vs: seq<u16>)
    requires VersionsFormed(es) && k < |es| && es[k].kind == 0x002b
    ensures 1 <= |vs| <= 127 && es[k].body == VersionsBody(vs)
  {
    vs :| 1 <= |vs| <= 127 && es[k].body == VersionsBody(vs);
  }

  lemma VersionsHitRead(skb: Segment, base: nat, es: seq<Extension>, k: nat, vs: seq<u16>)
    requires k < |es| && HeaderRead(skb, base, es, k) && 1 <= |vs| <= 127 && es[k].body == VersionsBody(vs)
    requires k == IndexOf(es, SUPPORTED_VERSIONS) && k < MAX_EXTENSIONS
    ensures ClientReport(ClientExtensions(skb, base, Off(es, k), |PrintExtensions(es)|, k), es)
  {
    ClientHit(skb, base, es, k);
    VersionsRead(skb, base + Off(es, k) + 4, vs);
    BestIsReported(Versions(skb, base + Off(es, k) + 4, |es[k].body|, 0, 0, false), es, k, vs);
  }

  lemma BestIsReported(p: Parsed, es: seq<Extension>, k: nat, vs: seq<u16>)
    requires k == IndexOf(es, SUPPORTED_VERSIONS) && k < |es| && k < MAX_EXTENSIONS
    requires 1 <= |vs| <= 127 && es[k].body == VersionsBody(vs)
    requires p.verdict == Matched && p.tls == TlsInfo(p.tls.helloVersion, 0, 0, CLIENT_HELLO)
    requires Best(vs[..Min(MAX_VERSIONS, |vs|)], p.tls.helloVersion)
    ensures ClientReport(p, es)
  {
  }

  lemma ClientHit(skb: Segment, base: nat, es: seq<Extension>, k: nat)
    requires k < |es| && k < MAX_EXTENSIONS && HeaderRead(skb, base, es, k) && es[k].kind == SUPPORTED_VERSIONS
    ensures ClientExtensions(skb, base, Off(es, k), |PrintExtensions(es)|, k)
            == Versions(skb, base + Off(es, k) + 4, |es[k].body|, 0, 0, false)
  {
  }

  lemma VersionsRead(skb: Segment, body: nat, vs: seq<u16>)
    requires 1 <= |vs| <= 127 && At(skb, body, VersionsBody(vs))
    ensures var p := Versions(skb, body, |VersionsBody(vs)|, 0, 0, false);
            && p.verdict == Matched && p.tls == TlsInfo(p.tls.helloVersion, 0, 0, CLIENT_HELLO)
            && Best(vs[..Min(MAX_VERSIONS, |vs|)], p.tls.helloVersion)
  {
    assert vs[..0] == [];
    VersionsWalk(skb, body, vs, 0);
    OfferKeepsBest(vs[..Min(MAX_VERSIONS, |vs|)]);
  }

  /** The version, the random and the session id in front of both hellos. */
  lemma OpeningRead(skb: Segment, offset: nat, random: Bytes, session: Bytes, rest: Bytes)
    requires |random| == 32 && |session| < 256
    requires At(skb, offset, Be16(TLS12) + (random + ([|session|] + (session + rest))))
    ensures Loads(skb, offset, 2) && Be16At(skb, offset) == TLS12
    ensures Loads(skb, offset + 34, 1) && skb[offset + 34] == |session|
    ensures At(skb, offset + 35 + |session|, rest)
  {
    AtSplit(skb, offset, Be16(TLS12), random + ([|session|] + (session + rest)));
    AtBe16(skb, offset, TLS12);
    AtSplit(skb, offset + 2, random, [|session|] + (session + rest));
    AtVector8(skb, offset + 34, session, rest);
  }

  /** The fields between the session id and the extensions. */
  lemma ClientMiddleRead(skb: Segment, at: nat, ciphers: Bytes, compression: Bytes, exts: Bytes)
    requires |ciphers| < U16_LIMIT && |compression| < 256 && |exts| < U16_LIMIT
    requires At(skb, at, Be16(|ciphers|) + (ciphers + ([|compression|] + (compression + (Be16(|exts|) + exts)))))
    ensures Loads(skb, at, 2) && Be16At(skb, at) == |ciphers|
    ensures var m := at + 2 + |ciphers|;
            && Loads(skb, m, 1) && skb[m] == |compression|
            && Loads(skb, m + 1 + |compression|, 2) && Be16At(skb, m + 1 + |compression|) == |exts|
            && At(skb, m + 3 + |compression|, exts)
  {
    AtVector16(skb, at, ciphers, [|compression|] + (compression + (Be16(|exts|) + exts)));
    var m := at + 2 + |ciphers|;
    AtVector8(skb, m, compression, Be16(|exts|) + exts);
    var x := m + 1 + |compression|;
    AtSplit(skb, x, Be16(|exts|), exts);
    AtBe16(skb, x, |exts|);
  }

  /** The fields in front of the extensions are where the parser looks for them. */
  ghost predicate ClientFields(skb: Segment, offset: nat, session: nat, ciphers: nat, compression: nat, exts: nat) {
    && Loads(skb, offset, 2) && Be16At(skb, offset) == TLS12
    && Loads(skb, offset + 34, 1) && skb[offset + 34] == session
    && Loads(skb, offset + 35 + session, 2) && Be16At(skb, offset + 35 + session) == ciphers
    && Loads(skb, offset + 37 + session + ciphers, 1) && skb[offset + 37 + session + ciphers] == compression
    && Loads(skb, offset + 38 + session + ciphers + compression, 2)
    && Be16At(skb, offset + 38 + session + ciphers + compression) == exts
  }

  /** The parser follows the lengths in front of the extensions. */
  lemma ClientFollows(skb: Segment, offset: nat, session: nat, ciphers: nat, compression: nat, exts: nat)
    requires ClientFields(skb, offset, session, ciphers, compression, exts)
    ensures ClientHelloAt(skb, offset)
            == ClientExtensions(skb, offset + 40 + session + ciphers + compression, 0, exts, 0)
  {
  }

  lemma ClientFieldsRead(skb: Segment, offset: nat, random: Bytes, session: Bytes, ciphers: Bytes, compression: Bytes,
                         exts: Bytes)
    requires |random| == 32 && |session| < 256 && |ciphers| < U16_LIMIT && |compression| < 256 && |exts| < U16_LIMIT
    requires At(skb, offset, Be16(TLS12) + (random + ([|session|] + (session +
               (Be16(|ciphers|) + (ciphers + ([|compression|] + (compression + (Be16(|exts|) + exts)))))))))
    ensures ClientFields(skb, offset, |session|, |ciphers|, |compression|, |exts|)
    ensures At(skb, offset + 40 + |session| + |ciphers| + |compression|, exts)
  {
    OpeningRead(skb, offset, random, session,
                Be16(|ciphers|) + (ciphers + ([|compression|] + (compression + (Be16(|exts|) + exts)))));
    ClientMiddleRead(skb, offset + 35 + |session|, ciphers, compression, exts);
  }

  /** The fields in front of the extensions lead the parser to them. */
  lemma ClientArrives(skb: Segment, offset: nat, session: nat, ciphers: nat, compression: nat,
                      exts: Bytes) returns (base: nat)
    requires ClientFields(skb, offset, session, ciphers, compression, |exts|)
    requires At(skb, offset + 40 + session + ciphers + compression, exts)
    ensures At(skb, base, exts) && ClientHelloAt(skb, offset) == ClientExtensions(skb, base, 0, |exts|, 0)
  {
    base := offset + 40 + session + ciphers + compression;
    ClientFollows(skb, offset, session, ciphers, compression, |exts|);
  }

  lemma ClientPrefixRead(skb: Segment, offset: nat, random: Bytes, session: Bytes, ciphers: Bytes, compression: Bytes,
                         exts: Bytes)
    returns (base: nat)
    requires |random| == 32 && |session| < 256 && |ciphers| < U16_LIMIT && |compression| < 256 && |exts| < U16_LIMIT
    requires At(skb, offset, Be16(TLS12) + (random + ([|session|] + (session +
               (Be16(|ciphers|) + (ciphers + ([|compression|] + (compression + (Be16(|exts|) + exts)))))))))
    ensures At(skb, base, exts) && ClientHelloAt(skb, offset) == ClientExtensions(skb, base, 0, |exts|, 0)
  {
    ClientFieldsRead(skb, offset, random, session, ciphers, compression, exts);
    base := ClientArrives(skb, offset, |session|, |ciphers|, |compression|, exts);
  }

  /**
   * Every well-formed ClientHello with legacy version 1.2 and an extensions block is matched, wherever
   * it stands. The version reported is the best of the first five offered when supported_versions is
   * among the first thirty extensions, and 1.2 otherwise.
   */
  lemma ClientHelloRead(skb: Segment, offset: nat, h: Client)
    requires ClientFits(h) && VersionsFormed(h.extensions) && At(skb, offset, PrintClient(h))
    ensures ClientReport(ClientHelloAt(skb, offset), h.extensions)
  {
    var exts := PrintExtensions(h.extensions);
    var base := ClientPrefixRead(skb, offset, h.random, h.session, h.ciphers, h.compression, exts);
    assert Off(h.extensions, 0) == 0;
    ClientExtensionsRead(skb, base, h.extensions);
  }

  lemma ClientExtensionsAt(skb: Segment, offset: nat, random: Bytes, session: Bytes, ciphers: Bytes,
                           compression: Bytes, exts: Bytes)
    requires |random| == 32 && |session| < 256 && |ciphers| < U16_LIMIT && |compression| < 256 && |exts| < U16_LIMIT
    requires At(skb, offset, Be16(TLS12) + (random + ([|session|] + (session +
               (Be16(|ciphers|) + (ciphers + ([|compression|] + (compression + (Be16(|exts|) + exts)))))))))
    ensures At(skb, offset + 40 + |session| + |ciphers| + |compression|, exts)
  {
    ClientFieldsRead(skb, offset, random, session, ciphers, compression, exts);
  }

  /** On the way no 16-bit offset wraps. */
  lemma ClientOffsetsStraight(skb: Segment, offset: nat, h: Client)
    requires ClientFits(h) && At(skb, offset, PrintClient(h))
    ensures Straight(skb, offset + 40 + |h.session| + |h.ciphers| + |h.compression|,
                     0, |PrintExtensions(h.extensions)|, 0)
  {
    var base := offset + 40 + |h.session| + |h.ciphers| + |h.compression|;
    assert At(skb, base, PrintExtensions(h.extensions)) by {
      ClientExtensionsAt(skb, offset, h.random, h.session, h.ciphers, h.compression, PrintExtensions(h.extensions));
    }
    StraightFromStart(skb, base, h.extensions);
  }

  lemma StraightFromStart(skb: Segment, base: nat, es: seq<Extension>)
    requires At(skb, base, PrintExtensions(es)) && |PrintExtensions(es)| < U16_LIMIT
    ensures Straight(skb, base, 0, |PrintExtensions(es)|, 0)
  {
    assert Off(es, 0) == 0;
    StraightRead(skb, base, es, 0);
  }

  // ----- ServerHello -----

  /** No extension is repeated, and the two that are read hold at least a version or a group. */
  ghost predicate ServerFormed(es: seq<Extension>) {
    && (forall i, j :: 0 <= i < j < |es| ==> es[i].kind != es[j].kind)
    && (forall i :: 0 <= i < |es| && (es[i].kind == 0x002b || es[i].kind == 0x0033) ==>
          |es[i].body| >= 2)
  }

  /** The number the first two bytes of this extension hold, if it is among the first n. */
  function Field(es: seq<Extension>, kind: u16, n: nat): Option<u16> {
    var k := IndexOf(es, kind);
    if k < n && k < |es| && |es[k].body| >= 2 then Some((es[k].body[0] as int) * 256 + es[k].body[1]) else None
  }

  function OrZero(v: Option<u16>): u16 { if v.None? then 0 else v.value }

  /** What the loop has gathered after n extensions. */
  function Gathered(es: seq<Extension>, n: nat, cipher: u16): TlsInfo {
    TlsInfo(OrZero(Field(es, 0x002b, n)), cipher, OrZero(Field(es, 0x0033, n)), {1})
  }

  function Fields(es: seq<Extension>, n: nat): nat {
    (if Field(es, 0x002b, n).Some? then 1 else 0) + (if Field(es, 0x0033, n).Some? then 1 else 0)
  }

  /** What the parser should report: both fields, or the legacy version. */
  function ServerResult(es: seq<Extension>, cipher: u16): TlsInfo {
    var n := 30;
    var tls := Gathered(es, n, cipher);
    if Fields(es, n) == 2 then tls else tls.(helloVersion := 0x0303)
  }

  /** In a hello without repeats, extension i is the first of its kind. */
  lemma OnlyOne(es: seq<Extension>, i: nat)
    requires ServerFormed(es) && i < |es|
    ensures IndexOf(es, es[i].kind) == i
  {
    var k := IndexOf(es, es[i].kind);
    assert es[k].kind == es[i].kind;
  }

  lemma FieldStep(es: seq<Extension>, i: nat, kind: u16)
    requires ServerFormed(es) && i < |es| && (kind == SUPPORTED_VERSIONS || kind == KEY_SHARE)
    ensures if es[i].kind == kind
            then |es[i].body| >= 2 && Field(es, kind, i).None?
                 && Field(es, kind, i + 1) == Some((es[i].body[0] as int) * 256 + es[i].body[1])
            else Field(es, kind, i + 1) == Field(es, kind, i)
  {
    OnlyOne(es, i);
  }

  /** Two bytes at the start of the body of extension i. */
  lemma BodyRead(skb: Segment, base: nat, es: seq<Extension>, i: nat)
    requires i < |es| && HeaderRead(skb, base, es, i) && |es[i].body| >= 2
    ensures var at := base + Off(es, i) + 4;
            Loads(skb, at, 2) && Be16At(skb, at) == (es[i].body[0] as int) * 256 + es[i].body[1]
  {
    AtByte(skb, base + Off(es, i) + 4, es[i].body, 0);
    AtByte(skb, base + Off(es, i) + 4, es[i].body, 1);
  }

  /** One turn of the loop over an extension that is not read. */
  lemma ServerSkip(skb: Segment, base: nat, es: seq<Extension>, i: nat, tls: TlsInfo, read: nat)
    requires i < |es| && i < MAX_EXTENSIONS && HeaderRead(skb, base, es, i) && read < 2
    requires es[i].kind != SUPPORTED_VERSIONS && es[i].kind != KEY_SHARE
    ensures ServerExtensions(skb, base, Off(es, i), |PrintExtensions(es)|, i, tls, read)
            == ServerExtensions(skb, base, Off(es, i + 1), |PrintExtensions(es)|, i + 1, tls, read)
  {
  }

  /** One turn of the loop over an extension that is read: with the second one, the loop ends. */
  lemma ServerTake(skb: Segment, base: nat, es: seq<Extension>, i: nat, tls: TlsInfo, read: nat, tls': TlsInfo, v: u16)
    requires i < |es| && i < MAX_EXTENSIONS && HeaderRead(skb, base, es, i) && read < 2
    requires Loads(skb, base + Off(es, i) + 4, 2) && Be16At(skb, base + Off(es, i) + 4) == v
    requires || (es[i].kind == SUPPORTED_VERSIONS && tls' == tls.(helloVersion := v))
             || (es[i].kind == KEY_SHARE && tls' == tls.(keyShare := v))
    ensures ServerExtensions(skb, base, Off(es, i), |PrintExtensions(es)|, i, tls, read)
            == if read == 1 then Parsed(Matched, tls')
               else ServerExtensions(skb, base, Off(es, i + 1), |PrintExtensions(es)|, i + 1, tls', read + 1)
  {
  }

  /** One turn: the loop ends with both fields, or goes on with what it gathered. */
  lemma ServerTurn(skb: Segment, base: nat, es: seq<Extension>, i: nat, cipher: u16)
    requires ServerFormed(es) && i < |es| && i < MAX_EXTENSIONS && HeaderRead(skb, base, es, i) && Fields(es, i) < 2
    ensures ServerExtensions(skb, base, Off(es, i), |PrintExtensions(es)|, i, Gathered(es, i, cipher), Fields(es, i))
            == if Fields(es, i + 1) == 2 then Parsed(Matched, Gathered(es, i + 1, cipher))
               else ServerExtensions(skb, base, Off(es, i + 1), |PrintExtensions(es)|, i + 1,
                                     Gathered(es, i + 1, cipher), Fields(es, i + 1))
  {
    FieldStep(es, i, SUPPORTED_VERSIONS);
    FieldStep(es, i, KEY_SHARE);
    var tls, tls' := Gathered(es, i, cipher), Gathered(es, i + 1, cipher);
    if es[i].kind == SUPPORTED_VERSIONS || es[i].kind == KEY_SHARE {
      BodyRead(skb, base, es, i);
      ServerTake(skb, base, es, i, tls, Fields(es, i), tls', Be16At(skb, base + Off(es, i) + 4));
    } else {
      ServerSkip(skb, base, es, i, tls, Fields(es, i));
    }
  }

  lemma FieldFinal(es: seq<Extension>, kind: u16, n: nat, m: nat)
    requires n <= m && (Field(es, kind, n).Some? || n >= |es|)
    ensures Field(es, kind, m) == Field(es, kind, n)
  {
  }

  lemma {:induction false} ServerWalk(skb: Segment, base: nat, es: seq<Extension>, i: nat, cipher: u16)
    requires ServerFormed(es) && At(skb, base, PrintExtensions(es)) && |PrintExtensions(es)| < U16_LIMIT
    requires i <= MAX_EXTENSIONS && i <= |es| && Fields(es, i) < 2
    ensures Off(es, i) < U16_LIMIT
    ensures ServerExtensions(skb, base, Off(es, i), |PrintExtensions(es)|, i, Gathered(es, i, cipher), Fields(es, i))
            == Parsed(Matched, ServerResult(es, cipher))
    decreases MAX_EXTENSIONS - i
  {
    if i == |es| {
      assert es[..i] == es;
      FieldFinal(es, SUPPORTED_VERSIONS, i, MAX_EXTENSIONS);
      FieldFinal(es, KEY_SHARE, i, MAX_EXTENSIONS);
    } else {
      HeaderAt(skb, base, es, i);
      if i < MAX_EXTENSIONS {
        ServerTurn(skb, base, es, i, cipher);
        if Fields(es, i + 1) == 2 {
          FieldFinal(es, SUPPORTED_VERSIONS, i + 1, MAX_EXTENSIONS);
          FieldFinal(es, KEY_SHARE, i + 1, MAX_EXTENSIONS);
        } else {
          ServerWalk(skb, base, es, i + 1, cipher);
        }
      }
    }
  }

  ghost predicate ServerFields(skb: Segment, offset: nat, session: nat, cipher: u16, exts: nat) {
    && Loads(skb, offset, 2) && Be16At(skb, offset) == TLS12
    && Loads(skb, offset + 34, 1) && skb[offset + 34] == session
    && Loads(skb, offset + 35 + session, 2) && Be16At(skb, offset + 35 + session) == cipher
    && Loads(skb, offset + 38 + session, 2) && Be16At(skb, offset + 38 + session) == exts
  }

  /** The parser follows the lengths in front of the extensions. */
  lemma ServerFollows(skb: Segment, offset: nat, session: nat, cipher: u16, exts: nat)
    requires ServerFields(skb, offset, session, cipher, exts)
    ensures ServerHelloAt(skb, offset)
            == ServerExtensions(skb, offset + 40 + session, 0, exts, 0, TlsInfo(0, cipher, 0, SERVER_HELLO), 0)
  {
  }

  lemma ServerMiddleRead(skb: Segment, at: nat, cipher: u16, compression: u8, exts: Bytes)
    requires |exts| < U16_LIMIT
    requires At(skb, at, Be16(cipher) + ([compression] + (Be16(|exts|) + exts)))
    ensures Loads(skb, at, 2) && Be16At(skb, at) == cipher
    ensures Loads(skb, at + 3, 2) && Be16At(skb, at + 3) == |exts| && At(skb, at + 5, exts)
  {
    AtSplit(skb, at, Be16(cipher), [compression] + (Be16(|exts|) + exts));
    AtBe16(skb, at, cipher);
    AtSplit(skb, at + 2, [compression], Be16(|exts|) + exts);
    AtSplit(skb, at + 3, Be16(|exts|), exts);
    AtBe16(skb, at + 3, |exts|);
  }

  lemma ServerFieldsRead(skb: Segment, offset: nat, random: Bytes, session: Bytes, cipher: u16, compression: u8,
                         exts: Bytes)
    requires |random| == 32 && |session| < 256 && |exts| < U16_LIMIT
    requires At(skb, offset, Be16(TLS12) + (random + ([|session|] + (session +
               (Be16(cipher) + ([compression] + (Be16(|exts|) + exts)))))))
    ensures ServerFields(skb, offset, |session|, cipher, |exts|) && At(skb, offset + 40 + |session|, exts)
  {
    OpeningRead(skb, offset, random, session, Be16(cipher) + ([compression] + (Be16(|exts|) + exts)));
    ServerMiddleRead(skb, offset + 35 + |session|, cipher, compression, exts);
  }

  lemma ServerArrives(skb: Segment, offset: nat, session: nat, cipher: u16, exts: Bytes) returns (base: nat)
    requires ServerFields(skb, offset, session, cipher, |exts|) && At(skb, offset + 40 + session, exts)
    ensures At(skb, base, exts)
    ensures ServerHelloAt(skb, offset)
            == ServerExtensions(skb, base, 0, |exts|, 0, TlsInfo(0, cipher, 0, SERVER_HELLO), 0)
  {
    base := offset + 40 + session;
    ServerFollows(skb, offset, session, cipher, |exts|);
  }

  lemma ServerPrefixRead(skb: Segment, offset: nat, random: Bytes, session: Bytes, cipher: u16, compression: u8,
                         exts: Bytes)
    returns (base: nat)
    requires |random| == 32 && |session| < 256 && |exts| < U16_LIMIT
    requires At(skb, offset, Be16(TLS12) + (random + ([|session|] + (session +
               (Be16(cipher) + ([compression] + (Be16(|exts|) + exts)))))))
    ensures At(skb, base, exts)
    ensures ServerHelloAt(skb, offset)
            == ServerExtensions(skb, base, 0, |exts|, 0, TlsInfo(0, cipher, 0, SERVER_HELLO), 0)
  {
    ServerFieldsRead(skb, offset, random, session, cipher, compression, exts);
    base := ServerArrives(skb, offset, |session|, cipher, exts);
  }

  /**
   * Every well-formed ServerHello with legacy version 1.2 is matched with its cipher suite. With
   * supported_versions and key_share both among the first thirty extensions, in any order, it yields
   * the selected version and group; with at most one of them it yields the legacy version.
   */
  lemma ServerHelloRead(skb: Segment, offset: nat, h: Server)
    requires ServerFits(h) && ServerFormed(h.extensions) && At(skb, offset, PrintServer(h))
    ensures ServerHelloAt(skb, offset) == Parsed(Matched, ServerResult(h.extensions, h.cipher))
  {
    var exts := PrintExtensions(h.extensions);
    var base := ServerPrefixRead(skb, offset, h.random, h.session, h.cipher, h.compression, exts);
    ServerStart(h.extensions, h.cipher);
    ServerWalk(skb, base, h.extensions, 0, h.cipher);
  }

  lemma ServerExtensionsAt(skb: Segment, offset: nat, random: Bytes, session: Bytes, cipher: u16, compression: u8,
                           exts: Bytes)
    requires |random| == 32 && |session| < 256 && |exts| < U16_LIMIT
    requires At(skb, offset, Be16(TLS12) + (random + ([|session|] + (session +
               (Be16(cipher) + ([compression] + (Be16(|exts|) + exts)))))))
    ensures At(skb, offset + 40 + |session|, exts)
  {
    ServerFieldsRead(skb, offset, random, session, cipher, compression, exts);
  }

  /** On the way no 16-bit offset wraps. */
  lemma ServerOffsetsStraight(skb: Segment, offset: nat, h: Server)
    requires ServerFits(h) && At(skb, offset, PrintServer(h))
    ensures Straight(skb, offset + 40 + |h.session|, 0, |PrintExtensions(h.extensions)|, 0)
  {
    var base := offset + 40 + |h.session|;
    assert At(skb, base, PrintExtensions(h.extensions)) by {
      ServerExtensionsAt(skb, offset, h.random, h.session, h.cipher, h.compression, PrintExtensions(h.extensions));
    }
    StraightFromStart(skb, base, h.extensions);
  }

  lemma ServerStart(es: seq<Extension>, cipher: u16)
    ensures Off(es, 0) == 0 && Gathered(es, 0, cipher) == TlsInfo(0, cipher, 0, SERVER_HELLO) && Fields(es, 0) == 0
  {
  }

  /** The selected version is what is reported if and only if both extensions are read (or it is 1.2). */
  lemma SelectedVersionReported(es: seq<Extension>, cipher: u16)
    requires ServerFormed(es) && Field(es, 0x002b, |es|).Some?
    ensures ServerResult(es, cipher).helloVersion == Field(es, 0x002b, |es|).value
            <==> Field(es, 0x002b, |es|).value == 0x0303
                 || (&& IndexOf(es, 0x002b) < 30
                     && IndexOf(es, 0x0033) < Min(30, |es|))
  {
    var k := IndexOf(es, KEY_SHARE);
    if k < |es| {
      assert |es[k].body| >= 2;
    }
  }

  /** A ServerHello that selects TLS 1.3 and carries nothing but supported_versions is reported as TLS 1.2. */
  lemma SelectedVersionMissed(random: Bytes, session: Bytes, cipher: u16, compression: u8)
    requires |random| == 32 && |session| <= 32
    ensures var h := Server(random, session, cipher, compression, [Extension(0x002b, [3, 4])]);
            && ServerFits(h) && ServerFormed(h.extensions) && Field(h.extensions, 0x002b, 1) == Some(0x0304)
            && ServerHelloAt(PrintServer(h), 0) == Parsed(Matched, TlsInfo(0x0303, cipher, 0, {1}))
  {
    var e := Extension(SUPPORTED_VERSIONS, [3, 4]);
    var h := Server(random, session, cipher, compression, [e]);
    assert [e][1..] == [] && PrintExtensions([e]) == PrintExtension(e) + [];
    OnlyVersions(e, cipher);
    var p := PrintServer(h);
    assert p[0..0 + |p|] == p;
    ServerHelloRead(p, 0, h);
  }

  lemma OnlyVersions(e: Extension, cipher: u16)
    requires e == Extension(SUPPORTED_VERSIONS, [3, 4])
    ensures ServerFormed([e]) && Field([e], SUPPORTED_VERSIONS, 1) == Some(0x0304)
    ensures ServerResult([e], cipher) == TlsInfo(0x0303, cipher, 0, SERVER_HELLO)
  {
    assert IndexOf([e], SUPPORTED_VERSIONS) == 0;
    assert IndexOf([e], KEY_SHARE) == 1;
  }
}
