/**
 * Finding the server name in a TLS ClientHello that may be cut short.
 *
 * The formats are those of section 4.1.2 of RFC 8446 and section 3 of RFC 6066.
 * `TlsSni` says what the parser answers for any bytes; the methods are the parser
 * itself, advancing a position; `Encode` builds well-formed messages.
 */
module ClientHello {
  import opened Common
  import opened Hostname

  function U16(hi: Byte, lo: Byte): (n: nat) { hi * 256 + lo }

  function U24(a: Byte, b: Byte, c: Byte): (n: nat) { a * 65536 + b * 256 + c }

  function Min(a: nat, b: nat): nat { if a <= b then a else b }

  // ---- Host names -------------------------------------------------------------

  function TrimDots(s: Bytes): (r: Bytes)
    ensures r <= s && (r != [] ==> r[|r| - 1] != DOT)
    ensures forall i :: |r| <= i < |s| ==> s[i] == DOT
  {
    if s != [] && s[|s| - 1] == DOT then TrimDots(s[..|s| - 1]) else s
  }

  function LowerByte(b: Byte): Byte {
    if 65 <= b <= 90 then b + 32 else b
  }

  /**
   * Lower-casing of UTF-8 text, when the outcome is ASCII. U+212A KELVIN SIGN (E2 84 AA) is
   * the only code point outside ASCII that lower-cases into ASCII; any other byte sequence is
   * malformed or keeps a character that no host name may contain.
   */
  function LowerName(s: Bytes): Option<Bytes> {
    if s == [] then Some([])
    else if s[0] < 128 then
      var rest := LowerName(s[1..]);
      if rest.None? then None else Some([LowerByte(s[0])] + rest.value)
    else if |s| >= 3 && s[0] == 0xE2 && s[1] == 0x84 && s[2] == 0xAA then
      var rest := LowerName(s[3..]);
      if rest.None? then None else Some([107] + rest.value)
    else None
  }

  /** The host a name entry denotes: without trailing dots, in lower case, and valid. */
  function CanonicalHost(name: Bytes): Option<Bytes> {
    var lowered := LowerName(TrimDots(name));
    if lowered.Some? && IsValidHostname(lowered.value) then lowered else None
  }

  lemma {:induction false} LowerNameHasNoCapitals(s: Bytes)
    requires LowerName(s).Some?
    ensures forall i :: 0 <= i < |LowerName(s).value| ==> !(65 <= LowerName(s).value[i] <= 90)
    decreases |s|
  {
    if s != [] {
      if s[0] < 128 {
        LowerNameHasNoCapitals(s[1..]);
      } else {
        LowerNameHasNoCapitals(s[3..]);
      }
    }
  }

  function LowerAscii(s: Bytes): Bytes {
    seq(|s|, i requires 0 <= i < |s| => LowerByte(s[i]))
  }

  lemma {:induction false} LowerNameOfAscii(s: Bytes)
    requires forall i :: 0 <= i < |s| ==> s[i] < 128
    ensures LowerName(s) == Some(LowerAscii(s))
  {
    if s != [] {
      LowerNameOfAscii(s[1..]);
      assert LowerAscii(s) == [LowerByte(s[0])] + LowerAscii(s[1..]);
    }
  }

  /** For ASCII names the canonical host is the name in lower case without trailing dots. */
  lemma CanonicalHostOfAscii(name: Bytes)
    requires forall i :: 0 <= i < |name| ==> name[i] < 128
    ensures CanonicalHost(name)
            == if HostnameRules(LowerAscii(TrimDots(name))) then Some(LowerAscii(TrimDots(name))) else None
  {
    LowerNameOfAscii(TrimDots(name));
    ValidHostnamesFollowRules(LowerAscii(TrimDots(name)));
  }

  /** Any canonical host obeys the hostname rules and holds no capital letter. */
  lemma CanonicalHostsFollowRules(name: Bytes)
    requires CanonicalHost(name).Some?
    ensures HostnameRules(CanonicalHost(name).value)
    ensures forall i :: 0 <= i < |CanonicalHost(name).value| ==> !(65 <= CanonicalHost(name).value[i] <= 90)
  {
    ValidHostnamesFollowRules(CanonicalHost(name).value);
    LowerNameHasNoCapitals(TrimDots(name));
  }

  // ---- What the parser answers --------------------------------------------------

  function NameScan(d: Bytes): Option<Bytes>
    decreases |d|
  {
    if |d| < 3 || 3 + U16(d[1], d[2]) > |d| then None
    else
      var len := U16(d[1], d[2]);
      if d[0] == 0 && CanonicalHost(d[3..3 + len]).Some? then CanonicalHost(d[3..3 + len])
      else NameScan(d[3 + len..])
  }

  function SniExtension(d: Bytes): Option<Bytes> {
    if |d| < 5 || 2 + U16(d[0], d[1]) > |d| then None
    else NameScan(d[2..2 + U16(d[0], d[1])])
  }

  function ExtensionScan(d: Bytes): Option<Bytes>
    decreases |d|
  {
    if |d| < 4 || 4 + U16(d[2], d[3]) > |d| then None
    else
      var len := U16(d[2], d[3]);
      if U16(d[0], d[1]) == 0 then SniExtension(d[4..4 + len]) else ExtensionScan(d[4 + len..])
  }

  /** What follows a vector with a one-byte length, if the vector is complete. */
  function AfterVector8(d: Bytes): Option<Bytes> {
    if |d| < 1 || 1 + d[0] > |d| then None else Some(d[1 + d[0]..])
  }

  function AfterVector16(d: Bytes): Option<Bytes> {
    if |d| < 2 || 2 + U16(d[0], d[1]) > |d| then None else Some(d[2 + U16(d[0], d[1])..])
  }

  function ExtensionBlock(d: Bytes): Option<Bytes> {
    if |d| < 2 then None else ExtensionScan(d[2..2 + Min(U16(d[0], d[1]), |d| - 2)])
  }

  function HelloBody(d: Bytes): Option<Bytes> {
    if |d| < 34 then None
    else
      var sessionId := AfterVector8(d[34..]);
      if sessionId.None? then None else
      var ciphers := AfterVector16(sessionId.value);
      if ciphers.None? then None else
      var compression := AfterVector8(ciphers.value);
      if compression.None? then None else ExtensionBlock(compression.value)
  }

  /** End of the ClientHello body: clamped by the record, by the message and by the buffer. */
  function BodyEnd(d: Bytes): nat
    requires |d| >= 9
  {
    Min(9 + U24(d[6], d[7], d[8]), Min(5 + U16(d[3], d[4]), |d|))
  }

  function TlsSni(d: Bytes): Option<Bytes> {
    if |d| < 9 || d[0] != 0x16 || U16(d[1], d[2]) < 0x0301 || U16(d[3], d[4]) < 4 || d[5] != 1 then None
    else HelloBody(d[9..BodyEnd(d)])
  }

  // ---- The parser ----------------------------------------------------------------

  /** One round of the name scan. */
  lemma NameScanStep(d: Bytes, name: Bytes, rest: Bytes)
    requires |d| >= 3 && 3 + U16(d[1], d[2]) <= |d|
    requires name == d[3..3 + U16(d[1], d[2])] && rest == d[3 + U16(d[1], d[2])..]
    ensures NameScan(d) == if d[0] == 0 && CanonicalHost(name).Some? then CanonicalHost(name) else NameScan(rest)
  {
  }

  lemma NameSlices(data: Bytes, pos: nat, end: nat)
    requires pos + 3 <= end <= |data| && pos + 3 + U16(data[pos + 1], data[pos + 2]) <= end
    ensures var len := U16(data[pos + 1], data[pos + 2]);
            && data[pos..end][3..3 + len] == data[pos + 3..pos + 3 + len]
            && data[pos..end][3 + len..] == data[pos + 3 + len..end]
  {
    var len := U16(data[pos + 1], data[pos + 2]);
    SubSlice(data, pos, end, 3, 3 + len);
    SubSlice(data, pos, end, 3 + len, end - pos);
    assert data[pos..end][3 + len..] == data[pos..end][3 + len..end - pos];
  }

  function EntryLen(data: Bytes, pos: nat): nat
    requires pos + 3 <= |data|
  {
    U16(data[pos + 1], data[pos + 2])
  }

  lemma NameScanAt(data: Bytes, pos: nat, end: nat, name: Bytes, rest: Bytes)
    requires pos + 3 <= end <= |data| && pos + 3 + EntryLen(data, pos) <= end
    requires name == data[pos + 3..pos + 3 + EntryLen(data, pos)] && rest == data[pos + 3 + EntryLen(data, pos)..end]
    ensures NameScan(data[pos..end])
            == if data[pos] == 0 && CanonicalHost(name).Some? then CanonicalHost(name) else NameScan(rest)
  {
    NameSlices(data, pos, end);
    NameScanStep(data[pos..end], name, rest);
  }

  lemma NameScanCut(data: Bytes, pos: nat, end: nat)
    requires pos + 3 <= end <= |data| && pos + 3 + EntryLen(data, pos) > end
    ensures NameScan(data[pos..end]) == None
  {
    var d := data[pos..end];
    assert d[1] == data[pos + 1] && d[2] == data[pos + 2];
  }

  /** One entry of the name list: its host if it has one, or where the next entry starts. */
  method ReadName(data: Bytes, pos: nat, end: nat) returns (host: Option<Bytes>, next: Option<nat>)
    requires pos + 3 <= end <= |data|
    ensures next.None? ==> host == NameScan(data[pos..end])
    ensures next.Some? ==> pos < next.value <= end && NameScan(data[pos..end]) == NameScan(data[next.value..end])
  {
    var nameEnd := pos + 3 + EntryLen(data, pos);
    if nameEnd > end {
      NameScanCut(data, pos, end);
      return None, None;
    }
    var name := data[pos + 3..nameEnd];
    NameScanAt(data, pos, end, name, data[nameEnd..end]);
    if data[pos] == 0 {
      host := CanonicalHost(name);
      if host.Some? {
        return host, None;
      }
    }
    return None, Some(nameEnd);
  }

  method ParseSniExtension(data: Bytes) returns (host: Option<Bytes>)
    ensures host == SniExtension(data)
  {
    if |data| < 5 {
      return None;
    }
    var listLen := U16(data[0], data[1]);
    var pos := 2;
    if pos + listLen > |data| {
      return None;
    }
    var listEnd := pos + listLen;
    while pos + 3 <= listEnd
      invariant 2 <= pos <= listEnd <= |data|
      invariant NameScan(data[2..listEnd]) == NameScan(data[pos..listEnd])
    {
      var next;
      host, next := ReadName(data, pos, listEnd);
      if next.None? {
        return;
      }
      pos := next.value;
    }
    return None;
  }

  method ParseClientHelloBody(data: Bytes) returns (host: Option<Bytes>)
    ensures host == HelloBody(data)
  {
    var end := |data|;
    if 34 >= end {
      return None;
    }
    var pos := 34;
    var sessionIdLen := data[pos];
    pos := pos + 1;
    if pos + sessionIdLen > end {
      return None;
    }
    pos := pos + sessionIdLen;
    assert AfterVector8(data[34..]) == Some(data[pos..]);
    if pos + 2 > end {
      return None;
    }
    var cipherSuitesLen := U16(data[pos], data[pos + 1]);
    ghost var afterSession := pos;
    pos := pos + 2;
    if pos + cipherSuitesLen > end {
      return None;
    }
    pos := pos + cipherSuitesLen;
    assert AfterVector16(data[afterSession..]) == Some(data[pos..]);
    if pos >= end {
      return None;
    }
    var compressionLen := data[pos];
    ghost var afterCiphers := pos;
    pos := pos + 1;
    if pos + compressionLen > end {
      return None;
    }
    pos := pos + compressionLen;
    assert AfterVector8(data[afterCiphers..]) == Some(data[pos..]);
    host := ParseExtensions(data, pos);
  }

  /** One round of the extension scan. */
  lemma ExtensionScanStep(d: Bytes, payload: Bytes, rest: Bytes)
    requires |d| >= 4 && 4 + U16(d[2], d[3]) <= |d|
    requires payload == d[4..4 + U16(d[2], d[3])] && rest == d[4 + U16(d[2], d[3])..]
    ensures ExtensionScan(d) == if U16(d[0], d[1]) == 0 then SniExtension(payload) else ExtensionScan(rest)
  {
  }

  function ExtensionLen(data: Bytes, pos: nat): nat
    requires pos + 4 <= |data|
  {
    U16(data[pos + 2], data[pos + 3])
  }

  lemma ExtensionScanAt(data: Bytes, pos: nat, end: nat, payload: Bytes, rest: Bytes)
    requires pos + 4 <= end <= |data| && pos + 4 + ExtensionLen(data, pos) <= end
    requires payload == data[pos + 4..pos + 4 + ExtensionLen(data, pos)]
    requires rest == data[pos + 4 + ExtensionLen(data, pos)..end]
    ensures ExtensionScan(data[pos..end])
            == if U16(data[pos], data[pos + 1]) == 0 then SniExtension(payload) else ExtensionScan(rest)
  {
    var d, len := data[pos..end], ExtensionLen(data, pos);
    assert d[0] == data[pos] && d[1] == data[pos + 1] && d[2] == data[pos + 2] && d[3] == data[pos + 3];
    SubSlice(data, pos, end, 4, 4 + len);
    SubSlice(data, pos, end, 4 + len, end - pos);
    assert d[4 + len..] == d[4 + len..end - pos];
    ExtensionScanStep(d, payload, rest);
  }

  lemma ExtensionScanCut(data: Bytes, pos: nat, end: nat)
    requires pos + 4 <= end <= |data| && pos + 4 + ExtensionLen(data, pos) > end
    ensures ExtensionScan(data[pos..end]) == None
  {
    var d := data[pos..end];
    assert d[2] == data[pos + 2] && d[3] == data[pos + 3];
  }

  method ScanExtensions(data: Bytes, start: nat, end: nat) returns (host: Option<Bytes>)
    requires start <= end <= |data|
    ensures host == ExtensionScan(data[start..end])
  {
    var pos := start;
    while pos + 4 <= end
      invariant start <= pos <= end
      invariant ExtensionScan(data[start..end]) == ExtensionScan(data[pos..end])
    {
      var payloadEnd := pos + 4 + ExtensionLen(data, pos);
      if payloadEnd > end {
        ExtensionScanCut(data, pos, end);
        return None;
      }
      var payload := data[pos + 4..payloadEnd];
      ExtensionScanAt(data, pos, end, payload, data[payloadEnd..end]);
      if U16(data[pos], data[pos + 1]) == 0 {
        host := ParseSniExtension(payload);
        return;
      }
      pos := payloadEnd;
    }
    return None;
  }

  method ParseExtensions(data: Bytes, start: nat) returns (host: Option<Bytes>)
    requires start <= |data|
    ensures host == ExtensionBlock(data[start..])
  {
    if start + 2 > |data| {
      return None;
    }
    var extensionsLen := U16(data[start], data[start + 1]);
    var end := Min(start + 2 + extensionsLen, |data|);
    assert data[start..] == data[start..|data|];
    SubSlice(data, start, |data|, 2, end - start);
    host := ScanExtensions(data, start + 2, end);
  }

  method ParseTlsSni(data: Bytes) returns (host: Option<Bytes>)
    ensures host == TlsSni(data)
  {
    if |data| < 5 || data[0] != 0x16 || U16(data[1], data[2]) < 0x0301 {
      return None;
    }
    var recordLen := U16(data[3], data[4]);
    var pos := 5;
    var available := Min(pos + recordLen, |data|);
    if pos >= available || data[pos] != 1 {
      return None;
    }
    pos := pos + 1;
    if pos + 3 > available {
      return None;
    }
    var handshakeLen := U24(data[pos], data[pos + 1], data[pos + 2]);
    pos := pos + 3;
    var bodyEnd := pos + Min(handshakeLen, available - pos);
    host := ParseClientHelloBody(data[pos..bodyEnd]);
  }

  // ---- Answers are stable under more data -------------------------------------------

  lemma {:induction false} ExtensionScanStable(d: Bytes, more: Bytes)
    requires ExtensionScan(d).Some?
    ensures ExtensionScan(d + more) == ExtensionScan(d)
    decreases |d|
  {
    var len := U16(d[2], d[3]);
    assert (d + more)[4..4 + len] == d[4..4 + len];
    if U16(d[0], d[1]) != 0 {
      assert (d + more)[4 + len..] == d[4 + len..] + more;
      ExtensionScanStable(d[4 + len..], more);
    }
  }

  lemma ClampStable(d: Bytes, more: Bytes, short: nat, long: nat)
    requires 2 <= short <= |d| && short <= long <= |d + more|
    requires ExtensionScan(d[2..short]).Some?
    ensures ExtensionScan((d + more)[2..long]) == ExtensionScan(d[2..short])
  {
    SliceGrows(d, more, 2, short, long);
    ExtensionScanStable(d[2..short], (d + more)[short..long]);
  }

  lemma ExtensionBlockStable(d: Bytes, more: Bytes)
    requires ExtensionBlock(d).Some?
    ensures ExtensionBlock(d + more) == ExtensionBlock(d)
  {
    var len := U16(d[0], d[1]);
    ClampStable(d, more, 2 + Min(len, |d| - 2), 2 + Min(len, |d + more| - 2));
  }

  lemma SliceGrows(d: Bytes, more: Bytes, i: nat, j: nat, k: nat)
    requires i <= j <= |d| && j <= k <= |d + more|
    ensures (d + more)[i..k] == d[i..j] + (d + more)[j..k]
  {
  }

  lemma Vector8Stable(d: Bytes, more: Bytes)
    requires AfterVector8(d).Some?
    ensures AfterVector8(d + more) == Some(AfterVector8(d).value + more)
  {
    assert (d + more)[1 + d[0]..] == d[1 + d[0]..] + more;
  }

  lemma Vector16Stable(d: Bytes, more: Bytes)
    requires AfterVector16(d).Some?
    ensures AfterVector16(d + more) == Some(AfterVector16(d).value + more)
  {
    var k := 2 + U16(d[0], d[1]);
    assert (d + more)[k..] == d[k..] + more;
  }

  lemma HelloBodyStable(d: Bytes, more: Bytes)
    requires HelloBody(d).Some?
    ensures HelloBody(d + more) == HelloBody(d)
  {
    assert (d + more)[34..] == d[34..] + more;
    Vector8Stable(d[34..], more);
    var sessionId := AfterVector8(d[34..]).value;
    Vector16Stable(sessionId, more);
    var ciphers := AfterVector16(sessionId).value;
    Vector8Stable(ciphers, more);
    ExtensionBlockStable(AfterVector8(ciphers).value, more);
  }

  /** Once a prefix yields a host, every longer prefix of any stream through it yields the same. */
  lemma SniStable(d: Bytes, more: Bytes)
    requires TlsSni(d).Some?
    ensures TlsSni(d + more) == TlsSni(d)
  {
    var all := d + more;
    assert all[3] == d[3] && all[4] == d[4] && all[6] == d[6] && all[7] == d[7] && all[8] == d[8];
    SliceGrows(d, more, 9, BodyEnd(d), BodyEnd(all));
    HelloBodyStable(d[9..BodyEnd(d)], all[BodyEnd(d)..BodyEnd(all)]);
  }

  // ---- Hosts that come out follow the rules --------------------------------------------

  ghost predicate GoodAnswer(host: Option<Bytes>) {
    host.Some? ==>
      && HostnameRules(host.value)
      && forall i :: 0 <= i < |host.value| ==> !(65 <= host.value[i] <= 90)
  }

  lemma {:induction false} NameScanGood(d: Bytes)
    ensures GoodAnswer(NameScan(d))
    decreases |d|
  {
    if |d| >= 3 && 3 + U16(d[1], d[2]) <= |d| {
      var len := U16(d[1], d[2]);
      if d[0] == 0 && CanonicalHost(d[3..3 + len]).Some? {
        CanonicalHostsFollowRules(d[3..3 + len]);
      } else {
        NameScanGood(d[3 + len..]);
      }
    }
  }

  lemma {:induction false} ExtensionScanGood(d: Bytes)
    ensures GoodAnswer(ExtensionScan(d))
    decreases |d|
  {
    if |d| >= 4 && 4 + U16(d[2], d[3]) <= |d| {
      var len := U16(d[2], d[3]);
      if U16(d[0], d[1]) == 0 {
        var payload := d[4..4 + len];
        if |payload| >= 5 && 2 + U16(payload[0], payload[1]) <= |payload| {
          NameScanGood(payload[2..2 + U16(payload[0], payload[1])]);
        }
      } else {
        ExtensionScanGood(d[4 + len..]);
      }
    }
  }

  /** Whatever bytes it is given, the parser answers only lower-case names that obey the rules. */
  lemma SniAnswersAreHostnames(d: Bytes)
    ensures GoodAnswer(TlsSni(d))
  {
    if TlsSni(d).Some? {
      var body := d[9..BodyEnd(d)];
      var ciphers := AfterVector16(AfterVector8(body[34..]).value).value;
      var block := AfterVector8(ciphers).value;
      ExtensionScanGood(block[2..2 + Min(U16(block[0], block[1]), |block| - 2)]);
    }
  }

  // ---- Well-formed messages --------------------------------------------------------------

  function Be16(n: nat): (b: Bytes)
    requires n < 0x1_0000
    ensures |b| == 2 && U16(b[0], b[1]) == n
  {
    [n / 256, n % 256]
  }

  function Be24(n: nat): (b: Bytes)
    requires n < 0x100_0000
    ensures |b| == 3 && U24(b[0], b[1], b[2]) == n
  {
    [n / 65536, n / 256 % 256, n % 256]
  }

  datatype ServerName = ServerName(nameType: Byte, name: Bytes)
  datatype Extension = Extension(extType: nat, payload: Bytes)

  datatype Hello = Hello(
    recordVersion: nat,
    version: Bytes,
    random: Bytes,
    sessionId: Bytes,
    cipherSuites: Bytes,
    compression: Bytes,
    before: seq<Extension>,
    names: seq<ServerName>,
    after: seq<Extension>)

  ghost predicate Sized(e: Extension) { e.extType < 0x1_0000 && |e.payload| < 0x1_0000 }

  function EncodeExtension(e: Extension): Bytes
    requires Sized(e)
  {
    Be16(e.extType) + Be16(|e.payload|) + e.payload
  }

  function EncodeExtensions(es: seq<Extension>): Bytes
    requires forall i :: 0 <= i < |es| ==> Sized(es[i])
  {
    if es == [] then [] else EncodeExtension(es[0]) + EncodeExtensions(es[1..])
  }

  function EncodeNames(names: seq<ServerName>): Bytes
    requires forall i :: 0 <= i < |names| ==> |names[i].name| < 0x1_0000
  {
    if names == [] then []
    else [names[0].nameType] + Be16(|names[0].name|) + names[0].name + EncodeNames(names[1..])
  }

  /** The first entry of type host_name that denotes a valid host. */
  function FirstHost(names: seq<ServerName>): Option<Bytes> {
    if names == [] then None
    else if names[0].nameType == 0 && CanonicalHost(names[0].name).Some? then CanonicalHost(names[0].name)
    else FirstHost(names[1..])
  }

  ghost predicate NamesSized(names: seq<ServerName>) {
    && (forall i :: 0 <= i < |names| ==> |names[i].name| < 0x1_0000)
    && 2 + |EncodeNames(names)| < 0x1_0000
  }

  function SniPayload(names: seq<ServerName>): Bytes
    requires NamesSized(names)
  {
    Be16(|EncodeNames(names)|) + EncodeNames(names)
  }

  /** The extension block up to and including the server name extension. */
  function ExtensionsHead(h: Hello): Bytes
    requires ExtensionsSized(h)
  {
    EncodeExtensions(h.before) + EncodeExtension(Extension(0, SniPayload(h.names)))
  }

  ghost predicate ExtensionsSized(h: Hello) {
    && NamesSized(h.names)
    && (forall i :: 0 <= i < |h.before| ==> Sized(h.before[i]) && h.before[i].extType != 0)
    && (forall i :: 0 <= i < |h.after| ==> Sized(h.after[i]))
  }

  ghost predicate WellFormed(h: Hello) {
    && 0x0301 <= h.recordVersion < 0x1_0000
    && |h.version| == 2 && |h.random| == 32 && |h.sessionId| < 256
    && |h.cipherSuites| < 0x1_0000 && |h.compression| < 256
    && ExtensionsSized(h)
    && |ExtensionsHead(h)| + |EncodeExtensions(h.after)| < 0x1_0000
    && 4 + BodyLen(h) < 0x1_0000
  }

  ghost function BodyLen(h: Hello): nat
    requires ExtensionsSized(h)
  {
    34 + 1 + |h.sessionId| + 2 + |h.cipherSuites| + 1 + |h.compression| + 2
    + |ExtensionsHead(h)| + |EncodeExtensions(h.after)|
  }

  /** The body up to and including the server name extension. */
  ghost function BodyHead(h: Hello): Bytes
    requires WellFormed(h)
  {
    (h.version + h.random)
    + (([|h.sessionId|] + h.sessionId)
       + ((Be16(|h.cipherSuites|) + h.cipherSuites)
          + (([|h.compression|] + h.compression)
             + (Be16(|ExtensionsHead(h)| + |EncodeExtensions(h.after)|) + ExtensionsHead(h)))))
  }

  /** The record up to and including the server name extension. */
  ghost function RecordHead(h: Hello): Bytes
    requires WellFormed(h)
  {
    [0x16] + Be16(h.recordVersion) + Be16(4 + BodyLen(h)) + [1] + Be24(BodyLen(h)) + BodyHead(h)
  }

  ghost function Encode(h: Hello): Bytes
    requires WellFormed(h)
  {
    RecordHead(h) + EncodeExtensions(h.after)
  }

  // ---- Well-formed messages parse to their first host ----------------------------------------

  lemma {:induction false} NameScanOfEncoding(names: seq<ServerName>)
    requires forall i :: 0 <= i < |names| ==> |names[i].name| < 0x1_0000
    ensures NameScan(EncodeNames(names)) == FirstHost(names)
  {
    if names != [] {
      var d, len := EncodeNames(names), |names[0].name|;
      assert d == [names[0].nameType] + Be16(len) + (names[0].name + EncodeNames(names[1..]));
      assert d[1] == Be16(len)[0] && d[2] == Be16(len)[1];
      assert d[3..3 + len] == names[0].name;
      assert d[3 + len..] == EncodeNames(names[1..]);
      NameScanOfEncoding(names[1..]);
    }
  }

  lemma SniExtensionIs(l: Bytes, list: Bytes)
    requires |l| == 2 && |list| == U16(l[0], l[1])
    ensures SniExtension(l + list) == NameScan(list)
  {
    assert (l + list)[2..2 + |list|] == list;
  }

  lemma SniExtensionOfEncoding(names: seq<ServerName>)
    requires NamesSized(names)
    ensures SniExtension(SniPayload(names)) == FirstHost(names)
  {
    NameScanOfEncoding(names);
    SniExtensionIs(Be16(|EncodeNames(names)|), EncodeNames(names));
  }

  lemma ScanOneExtension(e: Extension, rest: Bytes)
    requires Sized(e)
    ensures ExtensionScan(EncodeExtension(e) + rest)
            == if e.extType == 0 then SniExtension(e.payload) else ExtensionScan(rest)
  {
    var d, len := EncodeExtension(e) + rest, |e.payload|;
    assert d == Be16(e.extType) + (Be16(len) + (e.payload + rest));
    assert d[0] == Be16(e.extType)[0] && d[1] == Be16(e.extType)[1];
    assert d[2] == Be16(len)[0] && d[3] == Be16(len)[1];
    assert d[4..4 + len] == e.payload;
    assert d[4 + len..] == rest;
  }

  lemma {:induction false} ScanSkipsOtherExtensions(es: seq<Extension>, rest: Bytes)
    requires forall i :: 0 <= i < |es| ==> Sized(es[i]) && es[i].extType != 0
    ensures ExtensionScan(EncodeExtensions(es) + rest) == ExtensionScan(rest)
  {
    if es == [] {
      assert EncodeExtensions(es) + rest == rest;
    } else {
      assert EncodeExtensions(es) + rest == EncodeExtension(es[0]) + (EncodeExtensions(es[1..]) + rest);
      ScanOneExtension(es[0], EncodeExtensions(es[1..]) + rest);
      ScanSkipsOtherExtensions(es[1..], rest);
    }
  }

  lemma ScanServerName(names: seq<ServerName>, rest: Bytes)
    requires NamesSized(names)
    ensures ExtensionScan(EncodeExtension(Extension(0, SniPayload(names))) + rest) == FirstHost(names)
  {
    ScanOneExtension(Extension(0, SniPayload(names)), rest);
    SniExtensionOfEncoding(names);
  }

  lemma ScanFindsServerName(h: Hello, rest: Bytes)
    requires ExtensionsSized(h)
    ensures ExtensionScan(ExtensionsHead(h) + rest) == FirstHost(h.names)
  {
    var sni := EncodeExtension(Extension(0, SniPayload(h.names)));
    Associate(EncodeExtensions(h.before), sni, rest);
    ScanSkipsOtherExtensions(h.before, sni + rest);
    ScanServerName(h.names, rest);
  }

  lemma BlockFindsServerName(h: Hello, len: nat, rest: Bytes)
    requires ExtensionsSized(h) && |ExtensionsHead(h)| <= len < 0x1_0000
    ensures ExtensionBlock(Be16(len) + ExtensionsHead(h) + rest) == FirstHost(h.names)
  {
    var head := ExtensionsHead(h);
    var seen := Min(len, |head| + |rest|);
    BlockLayout(Be16(len), head, rest, seen);
    BlockIs(Be16(len) + head + rest, len, head + rest[..seen - |head|]);
    ScanFindsServerName(h, rest[..seen - |head|]);
  }

  lemma BlockIs(d: Bytes, len: nat, body: Bytes)
    requires |d| >= 2 && U16(d[0], d[1]) == len && body == d[2..2 + Min(len, |d| - 2)]
    ensures ExtensionBlock(d) == ExtensionScan(body)
  {
  }

  lemma BlockLayout(l: Bytes, head: Bytes, rest: Bytes, seen: nat)
    requires |l| == 2 && |head| <= seen <= |head| + |rest|
    ensures var d := l + head + rest;
            && |d| == 2 + |head| + |rest| && d[0] == l[0] && d[1] == l[1]
            && d[2..2 + seen] == head + rest[..seen - |head|]
  {
  }

  lemma SkipVector8(v: Bytes, rest: Bytes)
    requires |v| < 256
    ensures AfterVector8([|v|] + v + rest) == Some(rest)
  {
    assert ([|v|] + v + rest)[1 + |v|..] == rest;
  }

  lemma SkipVector16(v: Bytes, rest: Bytes)
    requires |v| < 0x1_0000
    ensures AfterVector16(Be16(|v|) + v + rest) == Some(rest)
  {
    var d := Be16(|v|) + v + rest;
    assert d == Be16(|v|) + (v + rest);
    assert d[2 + |v|..] == rest;
  }

  lemma LaidBody(fixed: Bytes, a: Bytes, b: Bytes, c: Bytes, l: Bytes, head: Bytes, rest: Bytes)
    ensures fixed + (a + (b + (c + (l + head)))) + rest == fixed + (a + (b + (c + (l + head + rest))))
  {
    var x4 := l + head;
    var x3 := c + x4;
    var x2 := b + x3;
    Associate(c, x4, rest);
    Associate(b, x3, rest);
    Associate(a, x2, rest);
    Associate(fixed, a + x2, rest);
  }

  lemma AfterSkipped(fixed: Bytes, r1: Bytes, r2: Bytes, r3: Bytes, block: Bytes)
    requires |fixed| == 34 && AfterVector8(r1) == Some(r2) && AfterVector16(r2) == Some(r3)
    requires AfterVector8(r3) == Some(block)
    ensures HelloBody(fixed + r1) == ExtensionBlock(block)
  {
    assert (fixed + r1)[34..] == r1;
  }

  /** The fixed fields and the three vectors before the extensions are skipped, whatever they hold. */
  lemma BodySkipsToExtensions(
    fixed: Bytes, sessionId: Bytes, ciphers: Bytes, compression: Bytes, block: Bytes, d: Bytes)
    requires |fixed| == 34 && |sessionId| < 256 && |ciphers| < 0x1_0000 && |compression| < 256
    requires d == fixed + ([|sessionId|] + sessionId
                           + (Be16(|ciphers|) + ciphers + ([|compression|] + compression + block)))
    ensures HelloBody(d) == ExtensionBlock(block)
  {
    var r3 := [|compression|] + compression + block;
    var r2 := Be16(|ciphers|) + ciphers + r3;
    var r1 := [|sessionId|] + sessionId + r2;
    SkipVector8(sessionId, r2);
    SkipVector16(ciphers, r3);
    SkipVector8(compression, block);
    AfterSkipped(fixed, r1, r2, r3, block);
  }

  lemma BodyIsLaid(h: Hello, len: nat, rest: Bytes, block: Bytes)
    requires WellFormed(h) && len == |ExtensionsHead(h)| + |EncodeExtensions(h.after)|
    requires block == Be16(len) + ExtensionsHead(h) + rest
    ensures BodyHead(h) + rest
            == (h.version + h.random)
               + ([|h.sessionId|] + h.sessionId
                  + (Be16(|h.cipherSuites|) + h.cipherSuites + ([|h.compression|] + h.compression + block)))
  {
    LaidBody(h.version + h.random, [|h.sessionId|] + h.sessionId, Be16(|h.cipherSuites|) + h.cipherSuites,
             [|h.compression|] + h.compression, Be16(len), ExtensionsHead(h), rest);
  }

  lemma BodyFindsServerName(h: Hello, rest: Bytes)
    requires WellFormed(h)
    ensures HelloBody(BodyHead(h) + rest) == FirstHost(h.names)
  {
    var len := |ExtensionsHead(h)| + |EncodeExtensions(h.after)|;
    var block := Be16(len) + ExtensionsHead(h) + rest;
    BlockFindsServerName(h, len, rest);
    BodyIsLaid(h, len, rest, block);
    BodySkipsToExtensions(h.version + h.random, h.sessionId, h.cipherSuites, h.compression, block, BodyHead(h) + rest);
  }

  /** The nine bytes before the body carry exactly the fields the parser reads there. */
  lemma RecordHeader(h: Hello, rest: Bytes)
    requires WellFormed(h)
    ensures var d := RecordHead(h) + rest;
            && |d| >= 9 && d[0] == 0x16 && U16(d[1], d[2]) == h.recordVersion
            && U16(d[3], d[4]) == 4 + BodyLen(h) && d[5] == 1 && U24(d[6], d[7], d[8]) == BodyLen(h)
            && d[9..] == BodyHead(h) + rest
  {
    HeaderLayout(Be16(h.recordVersion), Be16(4 + BodyLen(h)), Be24(BodyLen(h)), BodyHead(h), rest);
  }

  lemma HeaderLayout(v: Bytes, l: Bytes, b: Bytes, body: Bytes, rest: Bytes)
    requires |v| == 2 && |l| == 2 && |b| == 3
    ensures var d := [0x16] + v + l + [1] + b + body + rest;
            && |d| >= 9 && d[0] == 0x16 && d[1] == v[0] && d[2] == v[1] && d[3] == l[0] && d[4] == l[1]
            && d[5] == 1 && d[6] == b[0] && d[7] == b[1] && d[8] == b[2] && d[9..] == body + rest
  {
  }

  lemma BodyHeadFits(h: Hello)
    requires WellFormed(h)
    ensures |BodyHead(h)| + |EncodeExtensions(h.after)| == BodyLen(h)
  {
  }

  /**
   * A ClientHello in one record yields the first valid host it names, as soon as the buffer
   * reaches the end of the server name extension and whatever comes after it.
   */
  lemma WellFormedHelloYieldsHost(h: Hello, rest: Bytes)
    requires WellFormed(h)
    ensures TlsSni(RecordHead(h) + rest) == FirstHost(h.names)
  {
    var d := RecordHead(h) + rest;
    RecordHeader(h, rest);
    BodyHeadFits(h);
    var seen := BodyEnd(d) - 9;
    assert d[9..BodyEnd(d)] == d[9..][..seen] == BodyHead(h) + rest[..seen - |BodyHead(h)|];
    BodyFindsServerName(h, rest[..seen - |BodyHead(h)|]);
  }

  /** Without a server name extension the scan finds nothing, however the block is cut. */
  lemma {:induction false} NoServerNameNoHost(es: seq<Extension>, k: nat)
    requires forall i :: 0 <= i < |es| ==> Sized(es[i]) && es[i].extType != 0
    requires k <= |EncodeExtensions(es)|
    ensures ExtensionScan(EncodeExtensions(es)[..k]).None?
  {
    if es != [] {
      var first, d := EncodeExtension(es[0]), EncodeExtensions(es)[..k];
      if k >= |first| {
        assert d == first + EncodeExtensions(es[1..])[..k - |first|];
        ScanOneExtension(es[0], EncodeExtensions(es[1..])[..k - |first|]);
        NoServerNameNoHost(es[1..], k - |first|);
      } else if k >= 4 {
        assert d[2] == first[2] && d[3] == first[3];
        assert first[2] == Be16(|es[0].payload|)[0] && first[3] == Be16(|es[0].payload|)[1];
      }
    }
  }
}
