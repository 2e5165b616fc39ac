/** Hellos inside TCP segments, whole or cut short. */
module TlsSegment {
  import opened Words
  import opened Flows
  import opened Wire
  import opened TlsTracker
  import opened TlsHello

  /** The record and handshake headers lead the parser to the message. */
  lemma RecordRead(skb: Segment, at: nat, version: u16, recordLen: u16, handshake: u8, messageLen: Bytes,
                   message: Bytes)
    requires |messageLen| == 3 && 0x0300 <= version <= 0x0303
    requires At(skb, at, PrintRecord(version, recordLen, handshake, messageLen, message))
    ensures handshake == 0x01 ==> RecordAt(skb, at) == ClientHelloAt(skb, at + 9)
    ensures handshake == 0x02 ==> RecordAt(skb, at) == ServerHelloAt(skb, at + 9)
    ensures At(skb, at + 9, message)
  {
    var r1 := messageLen + message;
    var r2 := [handshake] + r1;
    var r3 := Be16(recordLen) + r2;
    AtByte(skb, at, [0x16] + (Be16(version) + r3), 0);
    AtSplit(skb, at, [0x16], Be16(version) + r3);
    AtSplit(skb, at + 1, Be16(version), r3);
    AtBe16(skb, at + 1, version);
    AtSplit(skb, at + 3, Be16(recordLen), r2);
    AtByte(skb, at + 5, r2, 0);
    AtSplit(skb, at + 5, [handshake], r1);
    AtSplit(skb, at + 6, messageLen, message);
  }

  /** The segment holds a TCP header at l4, of the length in its byte 12, followed by this payload. */
  ghost predicate Carries(skb: Segment, l4: nat, payload: Bytes) {
    && l4 + 20 <= |skb|
    && var len := skb[l4 + 12] / 16 * 4; len >= 20 && At(skb, l4 + len, payload)
  }

  /** Headers of lower layers, a TCP header, a payload and trailing bytes put together form such a segment. */
  lemma Assembled(pre: Bytes, tcp: Bytes, payload: Bytes, post: Bytes)
    requires |tcp| >= 20 && tcp[12] / 16 * 4 == |tcp| && |pre + tcp + payload + post| <= 0x7fff_ffff
    ensures Carries(pre + tcp + payload + post, |pre|, payload)
  {
    AtMiddle(pre + tcp, payload, post);
    assert (pre + tcp + payload + post)[|pre| + 12] == tcp[12];
  }

  /** Where the parser looks for the record. */
  function PayloadOffset(skb: Segment, l4: nat): nat
    requires l4 + 20 <= |skb|
  {
    l4 + skb[l4 + 12] / 16 * 4
  }

  /** The TCP, record and handshake headers lead the parser to the message. */
  lemma MessageLocated(skb: Segment, l4: nat, version: u16, recordLen: u16, handshake: u8, messageLen: Bytes,
                       message: Bytes)
    requires 0x0300 <= version <= 0x0303 && |messageLen| == 3
    requires Carries(skb, l4, PrintRecord(version, recordLen, handshake, messageLen, message))
    ensures var at := PayloadOffset(skb, l4);
            && (handshake == 0x01 ==> RecordAt(skb, at) == ClientHelloAt(skb, at + 9))
            && (handshake == 0x02 ==> RecordAt(skb, at) == ServerHelloAt(skb, at + 9))
            && At(skb, at + 9, message)
  {
    RecordRead(skb, PayloadOffset(skb, l4), version, recordLen, handshake, messageLen, message);
  }

  /** The parse function from the TCP payload on, on every segment that carries a well-formed ClientHello. */
  lemma {:induction false} ClientSegment(skb: Segment, l4: nat, version: u16, recordLen: u16, messageLen: Bytes,
                                         h: Client)
    requires 0x0300 <= version <= 0x0303 && |messageLen| == 3 && ClientFits(h) && VersionsFormed(h.extensions)
    requires Carries(skb, l4, PrintRecord(version, recordLen, 0x01, messageLen, PrintClient(h)))
    ensures ClientReport(RecordAt(skb, PayloadOffset(skb, l4)), h.extensions)
  {
    MessageLocated(skb, l4, version, recordLen, 0x01, messageLen, PrintClient(h));
    ClientHelloRead(skb, PayloadOffset(skb, l4) + 9, h);
  }

  /** The parse function from the TCP payload on, on every segment that carries a well-formed ServerHello. */
  lemma {:induction false} ServerSegment(skb: Segment, l4: nat, version: u16, recordLen: u16, messageLen: Bytes,
                                         h: Server)
    requires 0x0300 <= version <= 0x0303 && |messageLen| == 3 && ServerFits(h) && ServerFormed(h.extensions)
    requires Carries(skb, l4, PrintRecord(version, recordLen, 0x02, messageLen, PrintServer(h)))
    ensures RecordAt(skb, PayloadOffset(skb, l4)) == Parsed(Matched, ServerResult(h.extensions, h.cipher))
  {
    MessageLocated(skb, l4, version, recordLen, 0x02, messageLen, PrintServer(h));
    ServerHelloRead(skb, PayloadOffset(skb, l4) + 9, h);
  }

  /** track_tls_tcp past a TCP header that lies in the linear part. */
  method TrackPayload(skb: Segment, linear: nat, l4: nat) returns (p: Parsed)
    requires l4 + 20 <= linear <= |skb| && PayloadOffset(skb, l4) != l4
    ensures p == RecordAt(skb, PayloadOffset(skb, l4))
  {
    p := TrackTcp(skb, linear, Some(l4));
  }

  /** track_tls_tcp on every segment that carries a well-formed ClientHello, its TCP header in the linear part. */
  method TrackClient(skb: Segment, linear: nat, l4: nat, ghost version: u16, ghost recordLen: u16,
                     ghost messageLen: Bytes, ghost h: Client) returns (p: Parsed)
    requires l4 + 20 <= linear <= |skb|
    requires 0x0300 <= version <= 0x0303 && |messageLen| == 3 && ClientFits(h) && VersionsFormed(h.extensions)
    requires Carries(skb, l4, PrintRecord(version, recordLen, 0x01, messageLen, PrintClient(h)))
    ensures ClientReport(p, h.extensions)
  {
    ClientSegment(skb, l4, version, recordLen, messageLen, h);
    p := TrackPayload(skb, linear, l4);
  }

  /** track_tls_tcp on every segment that carries a well-formed ServerHello, its TCP header in the linear part. */
  method TrackServer(skb: Segment, linear: nat, l4: nat, ghost version: u16, ghost recordLen: u16,
                     ghost messageLen: Bytes, ghost h: Server) returns (p: Parsed)
    requires l4 + 20 <= linear <= |skb|
    requires 0x0300 <= version <= 0x0303 && |messageLen| == 3 && ServerFits(h) && ServerFormed(h.extensions)
    requires Carries(skb, l4, PrintRecord(version, recordLen, 0x02, messageLen, PrintServer(h)))
    ensures p == Parsed(Matched, ServerResult(h.extensions, h.cipher))
  {
    ServerSegment(skb, l4, version, recordLen, messageLen, h);
    p := TrackPayload(skb, linear, l4);
  }

  // ----- Other records -----

  /** A record of this content type and version, whatever follows. */
  function PrintStart(kind: u8, version: u16, rest: Bytes): Bytes {
    [kind] + (Be16(version) + rest)
  }

  lemma StartRead(skb: Segment, at: nat, kind: u8, version: u16, rest: Bytes)
    requires At(skb, at, PrintStart(kind, version, rest))
    ensures Loads(skb, at, 3) && skb[at] == kind && Be16At(skb, at + 1) == version && At(skb, at + 3, rest)
  {
    AtByte(skb, at, PrintStart(kind, version, rest), 0);
    AtSplit(skb, at, [kind], Be16(version) + rest);
    AtSplit(skb, at + 1, Be16(version), rest);
    AtBe16(skb, at + 1, version);
  }

  /**
   * Change-cipher, alert and application-data records are told by their own bits; any other content type but a
   * handshake, and any version outside 3.0 to 3.3, is not TLS.
   */
  lemma PlainRecord(skb: Segment, at: nat, kind: u8, version: u16, rest: Bytes)
    requires At(skb, at, PrintStart(kind, version, rest))
    ensures var p := RecordAt(skb, at);
            if !(0x0300 <= version <= 0x0303) then p == Parsed(NoTls, TlsInfo(0, 0, 0, {}))
            else if kind == 0x14 then p == Parsed(Matched, TlsInfo(0, 0, 0, {3}))
            else if kind == 0x15 then p == Parsed(Matched, TlsInfo(0, 0, 0, {4}))
            else if kind == 0x17 then p == Parsed(Matched, TlsInfo(0, 0, 0, {5}))
            else kind != 0x16 ==> p == Parsed(NoTls, TlsInfo(0, 0, 0, {}))
  {
    StartRead(skb, at, kind, version, rest);
  }

  /** A handshake record that is not a hello: the four known messages have one bit, any other is not decided. */
  lemma HandshakeRecord(skb: Segment, at: nat, version: u16, recordLen: u16, handshake: u8, rest: Bytes)
    requires 0x0300 <= version <= 0x0303 && handshake != 0x01 && handshake != 0x02
    requires At(skb, at, PrintStart(0x16, version, Be16(recordLen) + ([handshake] + rest)))
    ensures RecordAt(skb, at) ==
            if handshake == 0x0b || handshake == 0x0c || handshake == 0x0e || handshake == 0x10
            then Parsed(Matched, TlsInfo(0, 0, 0, {2}))
            else Parsed(Unknown, TlsInfo(0, 0, 0, {}))
  {
    StartRead(skb, at, 0x16, version, Be16(recordLen) + ([handshake] + rest));
    AtSplit(skb, at + 3, Be16(recordLen), [handshake] + rest);
    AtByte(skb, at + 5, [handshake] + rest, 0);
  }

  /** A hello of version 3.0 to 3.2 is reported with that version, and one outside 3.0 to 3.3 is not decided. */
  lemma OldHello(skb: Segment, at: nat, version: u16, recordLen: u16, handshake: u8, messageLen: Bytes, legacy: u16,
                 rest: Bytes)
    requires 0x0300 <= version <= 0x0303 && |messageLen| == 3 && (handshake == 0x01 || handshake == 0x02)
    requires legacy != 0x0303
    requires At(skb, at, PrintRecord(version, recordLen, handshake, messageLen, Be16(legacy) + rest))
    ensures RecordAt(skb, at) ==
            if 0x0300 <= legacy <= 0x0302
            then Parsed(Matched, TlsInfo(legacy, 0, 0, if handshake == 0x01 then {0} else {1}))
            else Parsed(Unknown, TlsInfo(0, 0, 0, {}))
  {
    RecordRead(skb, at, version, recordLen, handshake, messageLen, Be16(legacy) + rest);
    AtSplit(skb, at + 9, Be16(legacy), rest);
    AtBe16(skb, at + 9, legacy);
  }

  /** A segment that ends inside the record header, or before the handshake type, is not TLS. */
  lemma ShortRecord(skb: Segment, at: nat)
    requires |skb| < at + 3 || (|skb| <= at + 5 && skb[at] == 0x16)
    ensures RecordAt(skb, at) == Parsed(NoTls, TlsInfo(0, 0, 0, {}))
  {
  }

  /** What track_tls_tcp says of a payload that is no hello of version 3.3. */
  ghost predicate RecordReport(p: Parsed, kind: u8, version: u16, rest: Bytes) {
    if !(0x0300 <= version <= 0x0303) then p == Parsed(NoTls, TlsInfo(0, 0, 0, {}))
    else if kind == 0x14 then p == Parsed(Matched, TlsInfo(0, 0, 0, {3}))
    else if kind == 0x15 then p == Parsed(Matched, TlsInfo(0, 0, 0, {4}))
    else if kind == 0x17 then p == Parsed(Matched, TlsInfo(0, 0, 0, {5}))
    else if kind != 0x16 || |rest| < 3 then p == Parsed(NoTls, TlsInfo(0, 0, 0, {}))
    else if rest[2] in {0x0b, 0x0c, 0x0e, 0x10} then p == Parsed(Matched, TlsInfo(0, 0, 0, {2}))
    else rest[2] != 0x01 && rest[2] != 0x02 ==> p == Parsed(Unknown, TlsInfo(0, 0, 0, {}))
  }

  /** The payload is all that the segment holds. */
  lemma RecordToEnd(skb: Segment, at: nat, kind: u8, version: u16, rest: Bytes)
    requires At(skb, at, PrintStart(kind, version, rest)) && |skb| == at + 3 + |rest|
    ensures RecordReport(RecordAt(skb, at), kind, version, rest)
  {
    PlainRecord(skb, at, kind, version, rest);
    StartRead(skb, at, kind, version, rest);
    if kind == 0x16 && 0x0300 <= version <= 0x0303 {
      if |rest| < 3 {
        ShortRecord(skb, at);
      } else if rest[2] != 0x01 && rest[2] != 0x02 {
        AtByte(skb, at + 3, rest, 0);
        AtByte(skb, at + 3, rest, 1);
        var len: u16 := (rest[0] as int) * 256 + rest[1];
        assert Be16(len) == [rest[0], rest[1]];
        assert rest == Be16(len) + ([rest[2]] + rest[3..]);
        HandshakeRecord(skb, at, version, len, rest[2], rest[3..]);
      }
    }
  }

  /** track_tls_tcp on a segment that carries any record, its TCP header in the linear part. */
  method TrackRecord(skb: Segment, linear: nat, l4: nat, ghost kind: u8, ghost version: u16, ghost rest: Bytes)
    returns (p: Parsed)
    requires l4 + 20 <= linear <= |skb| && Carries(skb, l4, PrintStart(kind, version, rest))
    requires |skb| == PayloadOffset(skb, l4) + 3 + |rest|
    ensures RecordReport(p, kind, version, rest)
  {
    RecordToEnd(skb, PayloadOffset(skb, l4), kind, version, rest);
    p := TrackPayload(skb, linear, l4);
  }

  /** track_tls_tcp on a segment that carries a hello of another version. */
  method TrackOldHello(skb: Segment, linear: nat, l4: nat, ghost version: u16, ghost recordLen: u16,
                       ghost handshake: u8, ghost messageLen: Bytes, ghost legacy: u16, ghost rest: Bytes)
    returns (p: Parsed)
    requires l4 + 20 <= linear <= |skb| && legacy != 0x0303
    requires 0x0300 <= version <= 0x0303 && |messageLen| == 3 && (handshake == 0x01 || handshake == 0x02)
    requires Carries(skb, l4, PrintRecord(version, recordLen, handshake, messageLen, Be16(legacy) + rest))
    ensures p == if 0x0300 <= legacy <= 0x0302
                 then Parsed(Matched, TlsInfo(legacy, 0, 0, if handshake == 0x01 then {0} else {1}))
                 else Parsed(Unknown, TlsInfo(0, 0, 0, {}))
  {
    OldHello(skb, PayloadOffset(skb, l4), version, recordLen, handshake, messageLen, legacy, rest);
    p := TrackPayload(skb, linear, l4);
  }

  // ----- Segments cut short -----

  /** What loads in a prefix loads the same in the whole. */
  lemma LoadsCut(t: Segment, s: Segment, offset: nat)
    requires t <= s && Loads(t, offset, 2)
    ensures Loads(s, offset, 2) && Be16At(t, offset) == Be16At(s, offset)
  {
  }

  lemma {:induction false} VersionsCut(t: Segment, s: Segment, body: nat, len: u16, j: nat, best: u16, known: bool)
    requires t <= s && j <= MAX_VERSIONS
    ensures Versions(t, body, len, j, best, known).verdict == Matched ==>
              Versions(t, body, len, j, best, known) == Versions(s, body, len, j, best, known)
    decreases MAX_VERSIONS - j
  {
    if j < MAX_VERSIONS && 1 + 2 * j < len && Loads(t, body + 1 + 2 * j, 2) {
      LoadsCut(t, s, body + 1 + 2 * j);
      var (best', known') := Prefer(best, known, Be16At(t, body + 1 + 2 * j));
      VersionsCut(t, s, body, len, j + 1, best', known');
    }
  }

  lemma {:induction false} ClientExtensionsCut(t: Segment, s: Segment, base: nat, off: u16, len: u16, i: nat)
    requires t <= s && i <= MAX_EXTENSIONS
    ensures ClientExtensions(t, base, off, len, i).verdict == Matched ==>
              ClientExtensions(t, base, off, len, i) == ClientExtensions(s, base, off, len, i)
    decreases MAX_EXTENSIONS - i
  {
    if i < MAX_EXTENSIONS && off < len && Loads(t, base + off, 4) {
      LoadsCut(t, s, base + off);
      LoadsCut(t, s, base + off + 2);
      var kind, n, body := Be16At(t, base + off), Be16At(t, base + off + 2), Wrap16(off + 4);
      if kind == SUPPORTED_VERSIONS {
        VersionsCut(t, s, base + body, n, 0, 0, false);
      } else {
        ClientExtensionsCut(t, s, base, Wrap16((body as int) + n), len, i + 1);
      }
    }
  }

  lemma {:induction false} ServerExtensionsCut(t: Segment, s: Segment, base: nat, off: u16, len: u16, i: nat,
                                               tls: TlsInfo, read: nat)
    requires t <= s && i <= MAX_EXTENSIONS
    ensures ServerExtensions(t, base, off, len, i, tls, read).verdict == Matched ==>
              ServerExtensions(t, base, off, len, i, tls, read) == ServerExtensions(s, base, off, len, i, tls, read)
    decreases MAX_EXTENSIONS - i
  {
    if i < MAX_EXTENSIONS && off < len && Loads(t, base + off, 4) {
      LoadsCut(t, s, base + off);
      LoadsCut(t, s, base + off + 2);
      var kind, n, body := Be16At(t, base + off), Be16At(t, base + off + 2), Wrap16(off + 4);
      var wanted := kind == SUPPORTED_VERSIONS || kind == KEY_SHARE;
      if !wanted {
        if read != 2 {
          ServerExtensionsCut(t, s, base, Wrap16((body as int) + n), len, i + 1, tls, read);
        }
      } else if Loads(t, base + body, 2) {
        LoadsCut(t, s, base + body);
        var v := Be16At(t, base + body);
        var tls' := if kind == SUPPORTED_VERSIONS then tls.(helloVersion := v) else tls.(keyShare := v);
        ServerExtensionsCut(t, s, base, Wrap16((body as int) + n), len, i + 1, tls', read + 1);
      }
    }
  }

  lemma ClientCut(t: Segment, s: Segment, offset: nat)
    requires t <= s
    ensures ClientHelloAt(t, offset).verdict == Matched ==> ClientHelloAt(t, offset) == ClientHelloAt(s, offset)
  {
    if ClientHelloAt(t, offset).verdict == Matched {
      LoadsCut(t, s, offset);
      if Be16At(t, offset) == TLS12 {
        var c := offset + 35 + (t[offset + 34] as int);
        LoadsCut(t, s, c);
        var m := c + 2 + Be16At(t, c);
        var x := m + 1 + (t[m] as int);
        LoadsCut(t, s, x);
        ClientExtensionsCut(t, s, x + 2, 0, Be16At(t, x), 0);
      }
    }
  }

  lemma ServerCut(t: Segment, s: Segment, offset: nat)
    requires t <= s
    ensures ServerHelloAt(t, offset).verdict == Matched ==> ServerHelloAt(t, offset) == ServerHelloAt(s, offset)
  {
    if ServerHelloAt(t, offset).verdict == Matched {
      LoadsCut(t, s, offset);
      if Be16At(t, offset) == TLS12 {
        var c := offset + 35 + (t[offset + 34] as int);
        LoadsCut(t, s, c);
        LoadsCut(t, s, c + 3);
        ServerExtensionsCut(t, s, c + 5, 0, Be16At(t, c + 3), 0, TlsInfo(0, Be16At(t, c), 0, SERVER_HELLO), 0);
      }
    }
  }

  /** A match on a segment cut anywhere is the match on the whole segment: cutting never makes up a result. */
  lemma MatchSurvivesGrowth(t: Segment, s: Segment, offset: nat)
    requires t <= s
    ensures RecordAt(t, offset).verdict == Matched ==> RecordAt(t, offset) == RecordAt(s, offset)
  {
    if RecordAt(t, offset).verdict == Matched {
      LoadsCut(t, s, offset + 1);
      ClientCut(t, s, offset + 9);
      ServerCut(t, s, offset + 9);
    }
  }

  // ----- What a hello that cannot be read to its end leaves -----

  /** Any bytes taken for a ClientHello: what is said of them does not depend on where they are cut, but for this. */
  lemma ClientVerdicts(skb: Segment, offset: nat)
    ensures var p := ClientHelloAt(skb, offset);
            if !Loads(skb, offset, 2) || !(0x0300 <= Be16At(skb, offset) <= 0x0303)
            then p == Parsed(Unknown, TlsInfo(0, 0, 0, {}))
            else if Be16At(skb, offset) < 0x0303 then p == Parsed(Matched, TlsInfo(Be16At(skb, offset), 0, 0, {0}))
            else p.verdict != NoTls && p.tls == TlsInfo(p.tls.helloVersion, 0, 0, {0})
  {
    if Loads(skb, offset, 2) && Be16At(skb, offset) == 0x0303 && Loads(skb, offset + 34, 1) {
      var ciphers := offset + 35 + skb[offset + 34];
      if Loads(skb, ciphers, 2) {
        var compression := ciphers + 2 + Be16At(skb, ciphers);
        if Loads(skb, compression, 1) {
          var exts := compression + 1 + skb[compression];
          if Loads(skb, exts, 2) {
            ClientExtensionsSay(skb, exts + 2, 0, Be16At(skb, exts), 0);
          }
        }
      }
    }
  }

  lemma {:induction false} ClientExtensionsSay(skb: Segment, base: nat, off: u16, len: u16, i: nat)
    requires i <= MAX_EXTENSIONS
    ensures var p := ClientExtensions(skb, base, off, len, i);
            p.verdict != NoTls && p.tls == TlsInfo(p.tls.helloVersion, 0, 0, {0})
    decreases MAX_EXTENSIONS - i
  {
    if i < MAX_EXTENSIONS && off < len && Loads(skb, base + off, 4) {
      var kind, extLen := Be16At(skb, base + off), Be16At(skb, base + off + 2);
      var body := Wrap16(off + 4);
      if kind == SUPPORTED_VERSIONS {
        VersionsSay(skb, base + body, extLen, 0, 0, false);
      } else {
        ClientExtensionsSay(skb, base, Wrap16((body as int) + extLen), len, i + 1);
      }
    }
  }

  lemma {:induction false} VersionsSay(skb: Segment, body: nat, len: u16, j: nat, best: u16, known: bool)
    requires j <= MAX_VERSIONS
    ensures var p := Versions(skb, body, len, j, best, known);
            p.verdict != NoTls && p.tls == TlsInfo(p.tls.helloVersion, 0, 0, {0})
    decreases MAX_VERSIONS - j
  {
    if j < MAX_VERSIONS && 1 + 2 * j < len && Loads(skb, body + 1 + 2 * j, 2) {
      var (best', known') := Prefer(best, known, Be16At(skb, body + 1 + 2 * j));
      VersionsSay(skb, body, len, j + 1, best', known');
    }
  }

  /** A ClientHello cut before its extensions is not decided, and its version is not known. */
  lemma ClientCutEarly(t: Segment, s: Segment, offset: nat, session: nat, ciphers: nat, compression: nat, exts: nat)
    requires t <= s && ClientFields(s, offset, session, ciphers, compression, exts)
    requires offset + 2 <= |t| < offset + 40 + session + ciphers + compression
    ensures ClientHelloAt(t, offset) == Parsed(Unknown, TlsInfo(0, 0, 0, {0}))
  {
    assert forall i :: 0 <= i < |t| ==> t[i] == s[i];
  }

  /** A supported_versions extension cut behind its m-th version leaves the best of the m read, undecided. */
  lemma VersionsCutAt(t: Segment, body: nat, vs: seq<u16>, m: nat)
    requires 1 <= |vs| <= 127 && m < |vs| && m < 5
    requires At(t, body + 1, PrintVersions(vs[..m])) && |t| < body + 1 + 2 * m + 2
    ensures var p := Versions(t, body, 1 + 2 * |vs|, 0, 0, false);
            && p.verdict == Unknown && p.tls == TlsInfo(p.tls.helloVersion, 0, 0, {0})
            && if m == 0 then p.tls.helloVersion == 0 else Best(vs[..m], p.tls.helloVersion)
  {
    assert vs[..0] == [];
    VersionsWalkCut(t, body, vs, 0, m);
    OfferKeepsBest(vs[..m]);
  }

  lemma {:induction false} VersionsWalkCut(t: Segment, body: nat, vs: seq<u16>, j: nat, m: nat)
    requires 1 <= |vs| <= 127 && j <= m < |vs| && m < MAX_VERSIONS
    requires At(t, body + 1, PrintVersions(vs[..m])) && |t| < body + 1 + 2 * m + 2
    ensures Versions(t, body, 1 + 2 * |vs|, j, Offer(vs[..j]).0, Offer(vs[..j]).1)
            == Parsed(Unknown, TlsInfo(Offer(vs[..m]).0, 0, 0, CLIENT_HELLO))
    decreases m - j
  {
    if j < m {
      VersionAt(t, body + 1, vs[..m], j);
      assert vs[..j + 1][..j] == vs[..j];
      VersionsWalkCut(t, body, vs, j + 1, m);
    }
  }

  /** Any bytes taken for a ServerHello. */
  lemma ServerVerdicts(skb: Segment, offset: nat)
    ensures var p := ServerHelloAt(skb, offset);
            if !Loads(skb, offset, 2) || !(0x0300 <= Be16At(skb, offset) <= 0x0303)
            then p == Parsed(Unknown, TlsInfo(0, 0, 0, {}))
            else if Be16At(skb, offset) < 0x0303 then p == Parsed(Matched, TlsInfo(Be16At(skb, offset), 0, 0, {1}))
            else p.verdict != NoTls && p.tls.kind == {1}
  {
    if Loads(skb, offset, 2) && Be16At(skb, offset) == 0x0303 && Loads(skb, offset + 34, 1) {
      var cipher := offset + 35 + skb[offset + 34];
      if Loads(skb, cipher, 2) && Loads(skb, cipher + 3, 2) {
        ServerExtensionsSay(skb, cipher + 5, 0, Be16At(skb, cipher + 3), 0,
                            TlsInfo(0, Be16At(skb, cipher), 0, SERVER_HELLO), 0);
      }
    }
  }

  /** The loop over extensions never touches the cipher suite, and ends undecided at worst. */
  lemma {:induction false} ServerExtensionsSay(skb: Segment, base: nat, off: u16, len: u16, i: nat, tls: TlsInfo,
                                               read: nat)
    requires i <= MAX_EXTENSIONS
    ensures var p := ServerExtensions(skb, base, off, len, i, tls, read);
            p.verdict != NoTls && p.tls.kind == tls.kind && p.tls.cipherSuite == tls.cipherSuite
    decreases MAX_EXTENSIONS - i
  {
    if i < MAX_EXTENSIONS && off < len && Loads(skb, base + off, 4) {
      var kind, extLen := Be16At(skb, base + off), Be16At(skb, base + off + 2);
      var body := Wrap16(off + 4);
      var wanted := kind == SUPPORTED_VERSIONS || kind == KEY_SHARE;
      if !wanted || Loads(skb, base + body, 2) {
        var tls' := if kind == SUPPORTED_VERSIONS then tls.(helloVersion := Be16At(skb, base + body))
                    else if kind == KEY_SHARE then tls.(keyShare := Be16At(skb, base + body)) else tls;
        ServerExtensionsSay(
          skb, base, Wrap16((body as int) + extLen), len, i + 1, tls', if wanted then read + 1 else read);
      }
    }
  }

  /** A ServerHello cut before its extensions is not decided; its cipher suite is told iff it is there. */
  lemma ServerCutEarly(t: Segment, s: Segment, offset: nat, session: nat, cipher: u16, exts: nat)
    requires t <= s && ServerFields(s, offset, session, cipher, exts) && offset + 2 <= |t| < offset + 40 + session
    ensures ServerHelloAt(t, offset) ==
            Parsed(Unknown, TlsInfo(0, if |t| < offset + 37 + session then 0 else cipher, 0, {1}))
  {
    assert forall i :: 0 <= i < |t| ==> t[i] == s[i];
  }

  // ----- Extensions longer than the block -----

  lemma WrapsTwice(off: u16, len: u16)
    ensures Wrap16((Wrap16(off + 4) as int) + len) == ((off as int) + 4 + len) % 65536
  {
    WrapAdd(off + 4, len, U16_LIMIT);
    WrapIsRemainder((off as int) + 4 + len, U16_LIMIT);
  }

  /** Whatever length an extension claims, the parser goes on behind it, modulo 2^16. */
  lemma TurnWraps(skb: Segment, base: nat, off: u16, len: u16, i: nat, tls: TlsInfo, read: nat)
    requires i < 30 && off < len && Loads(skb, base + off, 4) && read < 2
    requires Be16At(skb, base + off) != 0x002b && Be16At(skb, base + off) != 0x0033
    ensures var next := ((off as int) + 4 + Be16At(skb, base + off + 2)) % 65536;
            && ClientExtensions(skb, base, off, len, i) == ClientExtensions(skb, base, next, len, i + 1)
            && ServerExtensions(skb, base, off, len, i, tls, read)
               == ServerExtensions(skb, base, next, len, i + 1, tls, read)
  {
    WrapsTwice(off, Be16At(skb, base + off + 2));
  }
}
