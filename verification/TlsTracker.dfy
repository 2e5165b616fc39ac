/** The TLS hello parser (bpf/tls_tracker.h): what it reads from any segment. */
module TlsTracker {
  import opened Words
  import opened Flows
  import opened Wire

  datatype Verdict = Matched | Unknown | NoTls

  datatype Parsed = Parsed(verdict: Verdict, tls: TlsInfo)

  const NO_TLS_INFO := TlsInfo(0, 0, 0, {})

  const MAX_EXTENSIONS: nat := 30
  const MAX_VERSIONS: nat := 5
  const TLS12: u16 := 0x0303
  const SUPPORTED_VERSIONS: u16 := 0x002b
  const KEY_SHARE: u16 := 0x0033

  predicate Known(v: u16) { 0x0300 <= v <= 0x0303 }

  predicate KnownExt(v: u16) { 0x0300 <= v <= 0x0304 }

  function Wrap16(x: nat): u16 { Wrap(x, U16_LIMIT) }

  // ----- Specification of the loops -----

  /** The version kept after offering v. */
  function Prefer(best: u16, bestKnown: bool, v: u16): (u16, bool) {
    if !bestKnown && KnownExt(v) then (v, true)
    else if bestKnown == KnownExt(v) && v > best then (v, bestKnown)
    else (best, bestKnown)
  }

  /** The inner loop from its j-th turn on: the version kept, or None when a load fails. */
  function Versions(skb: Segment, body: nat, len: u16, j: nat, best: u16, bestKnown: bool): Parsed
    requires j <= MAX_VERSIONS
    decreases MAX_VERSIONS - j, skb, body
  {
    var at := 1 + 2 * j;
    if j == MAX_VERSIONS || at >= len then Parsed(Matched, TlsInfo(best, 0, 0, CLIENT_HELLO))
    else if !Loads(skb, body + at, 2) then Parsed(Unknown, TlsInfo(best, 0, 0, CLIENT_HELLO))
    else
      var (best', known') := Prefer(best, bestKnown, Be16At(skb, body + at));
      Versions(skb, body, len, j + 1, best', known')
  }

  /** The loop over ClientHello extensions from its i-th turn on. */
  function ClientExtensions(skb: Segment, base: nat, extOffset: u16, extsLen: u16, i: nat): Parsed
    requires i <= MAX_EXTENSIONS
    decreases MAX_EXTENSIONS - i, skb, base
  {
    if i == MAX_EXTENSIONS || extOffset >= extsLen then Parsed(Matched, TlsInfo(TLS12, 0, 0, CLIENT_HELLO))
    else if !Loads(skb, base + extOffset, 4) then Parsed(Unknown, TlsInfo(0, 0, 0, CLIENT_HELLO))
    else
      var kind, len := Be16At(skb, base + extOffset), Be16At(skb, base + extOffset + 2);
      var body := Wrap16(extOffset + 4);
      if kind == SUPPORTED_VERSIONS then Versions(skb, base + body, len, 0, 0, false)
      else ClientExtensions(skb, base, Wrap16(body + len), extsLen, i + 1)
  }

  function ClientHelloAt(skb: Segment, offset: nat): Parsed {
    if !Loads(skb, offset, 2) then Parsed(Unknown, NO_TLS_INFO)
    else
      var version := Be16At(skb, offset);
      var seen := TlsInfo(0, 0, 0, CLIENT_HELLO);
      if !Known(version) then Parsed(Unknown, NO_TLS_INFO)
      else if version != TLS12 then Parsed(Matched, seen.(helloVersion := version))
      else
        var session := offset + 34;
        if !Loads(skb, session, 1) then Parsed(Unknown, seen)
        else
          var ciphers := session + 1 + skb[session];
          if !Loads(skb, ciphers, 2) then Parsed(Unknown, seen)
          else
            var compression := ciphers + 2 + Be16At(skb, ciphers);
            if !Loads(skb, compression, 1) then Parsed(Unknown, seen)
            else
              var exts := compression + 1 + skb[compression];
              if !Loads(skb, exts, 2) then Parsed(Unknown, seen)
              else ClientExtensions(skb, exts + 2, 0, Be16At(skb, exts), 0)
  }

  /** The loop over ServerHello extensions: `read` counts supported_versions and key_share read so far. */
  function ServerExtensions(skb: Segment, base: nat, extOffset: u16, extsLen: u16, i: nat, tls: TlsInfo,
                            read: nat): Parsed
    requires i <= MAX_EXTENSIONS
    decreases MAX_EXTENSIONS - i, skb, base
  {
    if i == MAX_EXTENSIONS || extOffset >= extsLen then Parsed(Matched, tls.(helloVersion := TLS12))
    else if !Loads(skb, base + extOffset, 4) then Parsed(Unknown, tls)
    else
      var kind, len := Be16At(skb, base + extOffset), Be16At(skb, base + extOffset + 2);
      var body := Wrap16(extOffset + 4);
      var wanted := kind == SUPPORTED_VERSIONS || kind == KEY_SHARE;
      if wanted && !Loads(skb, base + body, 2) then Parsed(Unknown, tls)
      else
        var tls' := if kind == SUPPORTED_VERSIONS then tls.(helloVersion := Be16At(skb, base + body))
                    else if kind == KEY_SHARE then tls.(keyShare := Be16At(skb, base + body)) else tls;
        var read' := if wanted then read + 1 else read;
        if read' == 2 then Parsed(Matched, tls')
        else ServerExtensions(skb, base, Wrap16(body + len), extsLen, i + 1, tls', read')
  }

  function ServerHelloAt(skb: Segment, offset: nat): Parsed {
    if !Loads(skb, offset, 2) then Parsed(Unknown, NO_TLS_INFO)
    else
      var version := Be16At(skb, offset);
      var seen := TlsInfo(0, 0, 0, SERVER_HELLO);
      if !Known(version) then Parsed(Unknown, NO_TLS_INFO)
      else if version != TLS12 then Parsed(Matched, seen.(helloVersion := version))
      else
        var session := offset + 34;
        if !Loads(skb, session, 1) then Parsed(Unknown, seen)
        else
          var cipher := session + 1 + skb[session];
          if !Loads(skb, cipher, 2) then Parsed(Unknown, seen)
          else
            var tls := seen.(cipherSuite := Be16At(skb, cipher));
            var exts := cipher + 3;
            if !Loads(skb, exts, 2) then Parsed(Unknown, tls)
            else ServerExtensions(skb, exts + 2, 0, Be16At(skb, exts), 0, tls, 0)
  }

  // ----- The parser; its 32-bit offset never wraps, on any buffer -----

  method ReadVersions(skb: Segment, body: u32, len: u16) returns (p: Parsed)
    requires body < 0x8001_0000
    ensures p == Versions(skb, body, len, 0, 0, false)
  {
    var hello: u16, known := 0, false;
    var at: u16, j := 1, 0;
    while j < MAX_VERSIONS && at < len
      invariant 0 <= j <= MAX_VERSIONS && at == 1 + 2 * j
      invariant Versions(skb, body, len, 0, 0, false) == Versions(skb, body, len, j, hello, known)
      decreases MAX_VERSIONS - j
    {
      var pos: u32 := body + at;
      if !Loads(skb, pos, 2) {
        return Parsed(Unknown, TlsInfo(hello, 0, 0, CLIENT_HELLO));
      }
      var version := Be16At(skb, pos);
      var isKnown := KnownExt(version);
      if !known && isKnown {
        hello := version;
        known := true;
      } else if known == isKnown && version > hello {
        hello := version;
      }
      at := at + 2;
      j := j + 1;
    }
    return Parsed(Matched, TlsInfo(hello, 0, 0, CLIENT_HELLO));
  }

  method ReadClientExtensions(skb: Segment, base: u32, extsLen: u16) returns (p: Parsed)
    requires base <= |skb|
    ensures p == ClientExtensions(skb, base, 0, extsLen, 0)
  {
    var extOffset: u16, i := 0, 0;
    while i < MAX_EXTENSIONS && extOffset < extsLen
      invariant 0 <= i <= MAX_EXTENSIONS
      invariant ClientExtensions(skb, base, 0, extsLen, 0) == ClientExtensions(skb, base, extOffset, extsLen, i)
      decreases MAX_EXTENSIONS - i
    {
      var pos: u32 := base + extOffset;
      if !Loads(skb, pos, 4) {
        return Parsed(Unknown, TlsInfo(0, 0, 0, CLIENT_HELLO));
      }
      var kind, len := Be16At(skb, pos), Be16At(skb, pos + 2);
      extOffset := Wrap16(extOffset + 4);
      if kind == SUPPORTED_VERSIONS {
        p := ReadVersions(skb, base + extOffset, len);
        return;
      }
      extOffset := Wrap16(extOffset + len);
      i := i + 1;
    }
    return Parsed(Matched, TlsInfo(TLS12, 0, 0, CLIENT_HELLO));
  }

  /** tls_read_client_hello. */
  method ReadClientHello(skb: Segment, start: u32) returns (p: Parsed)
    ensures p == ClientHelloAt(skb, start)
  {
    var offset: u32 := start;
    if !Loads(skb, offset, 2) {
      return Parsed(Unknown, NO_TLS_INFO);
    }
    var version := Be16At(skb, offset);
    offset := offset + 2;
    if !Known(version) {
      return Parsed(Unknown, NO_TLS_INFO);
    }
    var tls := TlsInfo(0, 0, 0, CLIENT_HELLO);
    if version == TLS12 {
      offset := offset + 32;
      if !Loads(skb, offset, 1) {
        return Parsed(Unknown, tls);
      }
      offset := offset + 1 + (skb[offset] as int);
      if !Loads(skb, offset, 2) {
        return Parsed(Unknown, tls);
      }
      offset := offset + 2 + Be16At(skb, offset);
      if !Loads(skb, offset, 1) {
        return Parsed(Unknown, tls);
      }
      offset := offset + 1 + (skb[offset] as int);
      if !Loads(skb, offset, 2) {
        return Parsed(Unknown, tls);
      }
      var extsLen := Be16At(skb, offset);
      offset := offset + 2;
      p := ReadClientExtensions(skb, offset, extsLen);
      return;
    }
    return Parsed(Matched, tls.(helloVersion := version));
  }

  method ReadServerExtensions(skb: Segment, base: u32, extsLen: u16, tls0: TlsInfo) returns (p: Parsed)
    requires base <= |skb|
    ensures p == ServerExtensions(skb, base, 0, extsLen, 0, tls0, 0)
  {
    var extOffset: u16, i, read, tls := 0, 0, 0, tls0;
    while i < MAX_EXTENSIONS && extOffset < extsLen
      invariant 0 <= i <= MAX_EXTENSIONS && 0 <= read
      invariant ServerExtensions(skb, base, 0, extsLen, 0, tls0, 0)
                == ServerExtensions(skb, base, extOffset, extsLen, i, tls, read)
      decreases MAX_EXTENSIONS - i
    {
      var pos: u32 := base + extOffset;
      if !Loads(skb, pos, 4) {
        return Parsed(Unknown, tls);
      }
      var kind, len := Be16At(skb, pos), Be16At(skb, pos + 2);
      extOffset := Wrap16(extOffset + 4);
      if kind == SUPPORTED_VERSIONS {
        if !Loads(skb, base + extOffset, 2) {
          return Parsed(Unknown, tls);
        }
        tls := tls.(helloVersion := Be16At(skb, base + extOffset));
        read := read + 1;
      } else if kind == KEY_SHARE {
        if !Loads(skb, base + extOffset, 2) {
          return Parsed(Unknown, tls);
        }
        tls := tls.(keyShare := Be16At(skb, base + extOffset));
        read := read + 1;
      }
      if read == 2 {
        return Parsed(Matched, tls);
      }
      extOffset := Wrap16(extOffset + len);
      i := i + 1;
    }
    return Parsed(Matched, tls.(helloVersion := TLS12));
  }

  /** tls_read_server_hello. */
  method ReadServerHello(skb: Segment, start: u32) returns (p: Parsed)
    ensures p == ServerHelloAt(skb, start)
  {
    var offset: u32 := start;
    if !Loads(skb, offset, 2) {
      return Parsed(Unknown, NO_TLS_INFO);
    }
    var version := Be16At(skb, offset);
    offset := offset + 2;
    if !Known(version) {
      return Parsed(Unknown, NO_TLS_INFO);
    }
    var tls := TlsInfo(0, 0, 0, SERVER_HELLO);
    if version == TLS12 {
      offset := offset + 32;
      if !Loads(skb, offset, 1) {
        return Parsed(Unknown, tls);
      }
      offset := offset + 1 + (skb[offset] as int);
      if !Loads(skb, offset, 2) {
        return Parsed(Unknown, tls);
      }
      tls := tls.(cipherSuite := Be16At(skb, offset));
      offset := offset + 3;
      if !Loads(skb, offset, 2) {
        return Parsed(Unknown, tls);
      }
      var extsLen := Be16At(skb, offset);
      offset := offset + 2;
      p := ReadServerExtensions(skb, offset, extsLen, tls);
      return;
    }
    return Parsed(Matched, tls.(helloVersion := version));
  }

  function HandshakeAt(skb: Segment, offset: nat): Parsed {
    if !Loads(skb, offset, 1) then Parsed(NoTls, NO_TLS_INFO)
    else if skb[offset] == 0x01 then ClientHelloAt(skb, offset + 4)
    else if skb[offset] == 0x02 then ServerHelloAt(skb, offset + 4)
    else if skb[offset] in {0x10, 0x0b, 0x0c, 0x0e} then Parsed(Matched, TlsInfo(0, 0, 0, OTHER_HANDSHAKE))
    else Parsed(Unknown, NO_TLS_INFO)
  }

  /** The record at this offset: its header is 5 bytes, of which the length is not read. */
  function RecordAt(skb: Segment, offset: nat): Parsed {
    if !Loads(skb, offset, 3) || !Known(Be16At(skb, offset + 1)) then Parsed(NoTls, NO_TLS_INFO)
    else match skb[offset]
      case 0x16 => HandshakeAt(skb, offset + 5)
      case 0x14 => Parsed(Matched, TlsInfo(0, 0, 0, CHANGE_CIPHER))
      case 0x15 => Parsed(Matched, TlsInfo(0, 0, 0, ALERT))
      case 0x17 => Parsed(Matched, TlsInfo(0, 0, 0, APP_DATA))
      case _ => Parsed(NoTls, NO_TLS_INFO)
  }

  /** track_tls_tcp: `linear` is the directly readable part, `l4` where the TCP header starts, if known. */
  method TrackTcp(skb: Segment, linear: nat, l4: Option<nat>) returns (p: Parsed)
    requires linear <= |skb|
    ensures l4.None? || l4.value + 20 > linear ==> p == Parsed(NoTls, NO_TLS_INFO)
    ensures l4.Some? && l4.value + 20 <= linear ==>
              var len := skb[l4.value + 12] / 16 * 4;
              p == if len == 0 then Parsed(NoTls, NO_TLS_INFO) else RecordAt(skb, l4.value + len)
  {
    if l4.None? || l4.value + 20 > linear {
      return Parsed(NoTls, NO_TLS_INFO);
    }
    var len := skb[l4.value + 12] / 16 * 4;
    if len == 0 {
      return Parsed(NoTls, NO_TLS_INFO);
    }
    var offset: u32 := l4.value + len;
    if !Loads(skb, offset, 3) {
      return Parsed(NoTls, NO_TLS_INFO);
    }
    var contentType, version := skb[offset], Be16At(skb, offset + 1);
    offset := offset + 5;
    if !Known(version) {
      return Parsed(NoTls, NO_TLS_INFO);
    }
    if contentType == 0x16 {
      if !Loads(skb, offset, 1) {
        return Parsed(NoTls, NO_TLS_INFO);
      }
      var kind := skb[offset];
      offset := offset + 4;
      if kind == 0x01 {
        p := ReadClientHello(skb, offset);
      } else if kind == 0x02 {
        p := ReadServerHello(skb, offset);
      } else if kind == 0x10 || kind == 0x0b || kind == 0x0c || kind == 0x0e {
        p := Parsed(Matched, TlsInfo(0, 0, 0, OTHER_HANDSHAKE));
      } else {
        p := Parsed(Unknown, NO_TLS_INFO);
      }
    } else if contentType == 0x14 {
      p := Parsed(Matched, TlsInfo(0, 0, 0, CHANGE_CIPHER));
    } else if contentType == 0x15 {
      p := Parsed(Matched, TlsInfo(0, 0, 0, ALERT));
    } else if contentType == 0x17 {
      p := Parsed(Matched, TlsInfo(0, 0, 0, APP_DATA));
    } else {
      p := Parsed(NoTls, NO_TLS_INFO);
    }
  }
}
