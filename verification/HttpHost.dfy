/** Finding the Host header in an HTTP request that may be cut short. */
module HttpHost {
  import opened Common
  import opened Hostname
  import opened ClientHello

  const LF: Byte := 10
  const COLON: Byte := 58

  function Ascii(s: string): (b: Bytes)
    requires forall i :: 0 <= i < |s| ==> s[i] as int < 128
    ensures |b| == |s|
  {
    seq(|s|, i requires 0 <= i < |s| => s[i] as int)
  }

  predicate StartsWith(s: Bytes, prefix: Bytes) { prefix <= s }

  predicate StartsWithMethod(data: Bytes) {
    || StartsWith(data, Ascii("GET "))
    || StartsWith(data, Ascii("POST "))
    || StartsWith(data, Ascii("CONNECT "))
    || StartsWith(data, Ascii("HEAD "))
    || StartsWith(data, Ascii("PUT "))
    || StartsWith(data, Ascii("DELETE "))
    || StartsWith(data, Ascii("OPTIONS "))
  }

  // ---- Text -----------------------------------------------------------------------------

  predicate Continuation(b: Byte) { 0x80 <= b <= 0xBF }

  /** Length of the UTF-8 character at the front, or 0 if there is none (section 4 of RFC 3629). */
  function CharLen(d: Bytes): (n: nat)
    ensures n <= |d|
  {
    if d == [] then 0
    else if d[0] < 0x80 then 1
    else if 0xC2 <= d[0] <= 0xDF then if |d| >= 2 && Continuation(d[1]) then 2 else 0
    else if 0xE0 <= d[0] <= 0xEF then
      if |d| >= 3 && Continuation(d[1]) && Continuation(d[2])
         && (d[0] == 0xE0 ==> d[1] >= 0xA0) && (d[0] == 0xED ==> d[1] <= 0x9F)
      then 3 else 0
    else if 0xF0 <= d[0] <= 0xF4 then
      if |d| >= 4 && Continuation(d[1]) && Continuation(d[2]) && Continuation(d[3])
         && (d[0] == 0xF0 ==> d[1] >= 0x90) && (d[0] == 0xF4 ==> d[1] <= 0x8F)
      then 4 else 0
    else 0
  }

  predicate IsUtf8(d: Bytes)
    decreases |d|
  {
    d == [] || (CharLen(d) > 0 && IsUtf8(d[CharLen(d)..]))
  }

  predicate IsAsciiSpace(b: Byte) { 9 <= b <= 13 || b == 32 }

  /** The white space characters outside ASCII, as they are encoded. */
  predicate IsSpace2(a: Byte, b: Byte) { a == 0xC2 && (b == 0x85 || b == 0xA0) }

  predicate IsSpace3(a: Byte, b: Byte, c: Byte) {
    || (a == 0xE1 && b == 0x9A && c == 0x80)
    || (a == 0xE2 && b == 0x80 && (0x80 <= c <= 0x8A || c == 0xA8 || c == 0xA9 || c == 0xAF))
    || (a == 0xE2 && b == 0x81 && c == 0x9F)
    || (a == 0xE3 && b == 0x80 && c == 0x80)
  }

  /** Length of the white space character at the front, or 0. */
  function SpaceAtFront(d: Bytes): (n: nat)
    ensures n <= |d|
  {
    if d == [] then 0
    else if IsAsciiSpace(d[0]) then 1
    else if |d| >= 2 && IsSpace2(d[0], d[1]) then 2
    else if |d| >= 3 && IsSpace3(d[0], d[1], d[2]) then 3
    else 0
  }

  function SpaceAtEnd(d: Bytes): (k: nat)
    ensures k <= |d|
  {
    var n := |d|;
    if n == 0 then 0
    else if IsAsciiSpace(d[n - 1]) then 1
    else if n >= 2 && IsSpace2(d[n - 2], d[n - 1]) then 2
    else if n >= 3 && IsSpace3(d[n - 3], d[n - 2], d[n - 1]) then 3
    else 0
  }

  function TrimStart(d: Bytes): (r: Bytes)
    ensures |r| <= |d| && SpaceAtFront(r) == 0
    decreases |d|
  {
    if SpaceAtFront(d) == 0 then d else TrimStart(d[SpaceAtFront(d)..])
  }

  function TrimEnd(d: Bytes): (r: Bytes)
    ensures |r| <= |d| && SpaceAtEnd(r) == 0
    decreases |d|
  {
    if SpaceAtEnd(d) == 0 then d else TrimEnd(d[..|d| - SpaceAtEnd(d)])
  }

  function Trim(d: Bytes): Bytes { TrimEnd(TrimStart(d)) }

  /** Index of the first occurrence of a byte, or the length. */
  function IndexOf(d: Bytes, b: Byte): (n: nat)
    ensures n <= |d| && (n < |d| ==> d[n] == b)
  {
    if d == [] || d[0] == b then 0 else 1 + IndexOf(d[1..], b)
  }

  lemma {:induction false} IndexIsFirst(d: Bytes, b: Byte)
    ensures forall i :: 0 <= i < IndexOf(d, b) ==> d[i] != b
  {
    if d != [] && d[0] != b {
      IndexIsFirst(d[1..], b);
      assert forall i :: 0 < i < |d| ==> d[i] == d[1..][i - 1];
    }
  }

  // ---- What the parser answers ---------------------------------------------------------------

  /** The host a header value names: without its port, in lower case, and valid. */
  function HostOfValue(value: Bytes): Option<Bytes> {
    var host := value[..IndexOf(value, COLON)];
    if IsValidHostname(host) then Some(LowerAscii(host)) else None
  }

  predicate IsHostHeader(line: Bytes) { |line| >= 5 && LowerAscii(line[..5]) == Ascii("host:") }

  /** The host a line gives, if it is a Host header with a valid name. */
  function LineHost(raw: Bytes): Option<Bytes> {
    var line := Trim(raw);
    if IsHostHeader(line) then HostOfValue(Trim(line[5..])) else None
  }

  /** The first line that gives a host. A carriage return before the line feed is trimmed. */
  function HostScan(d: Bytes): Option<Bytes>
    decreases |d|
  {
    if d == [] then None
    else
      var n := IndexOf(d, LF);
      var host := LineHost(d[..n]);
      if host.Some? || n == |d| then host else HostScan(d[n + 1..])
  }

  function HostOf(data: Bytes): Option<Bytes> {
    if IsUtf8(data) && StartsWithMethod(data) then HostScan(data) else None
  }

  method ScanLines(data: Bytes) returns (host: Option<Bytes>)
    ensures host == HostScan(data)
  {
    var rest := data;
    while rest != []
      invariant HostScan(data) == HostScan(rest)
      decreases |rest|
    {
      var end := IndexOf(rest, LF);
      host := LineHost(rest[..end]);
      if host.Some? || end == |rest| {
        return;
      }
      rest := rest[end + 1..];
    }
    return None;
  }

  method ParseHttpHost(data: Bytes) returns (host: Option<Bytes>)
    ensures host == HostOf(data)
  {
    if !IsUtf8(data) || !StartsWithMethod(data) {
      return None;
    }
    host := ScanLines(data);
  }

  // ---- Answers are host names --------------------------------------------------------------------

  lemma LoweredByteKind(b: Byte)
    ensures IsAlphanumeric(LowerByte(b)) <==> IsAlphanumeric(b)
    ensures LowerByte(b) == DOT <==> b == DOT
    ensures LowerByte(b) == HYPHEN <==> b == HYPHEN
    ensures !(65 <= LowerByte(b) <= 90)
  {
  }

  lemma LoweredStaysShort(h: Bytes)
    requires LabelsShort(h)
    ensures LabelsShort(LowerAscii(h))
  {
    forall lo: nat | lo + 64 <= |h|
      ensures DotWithin(LowerAscii(h), lo)
    {
      assert DotWithin(h, lo);
      var j :| lo <= j < lo + 64 && j < |h| && h[j] == DOT;
      assert LowerAscii(h)[j] == DOT;
    }
  }

  lemma LoweredStaysSeparated(h: Bytes)
    requires DotsSeparate(h)
    ensures DotsSeparate(LowerAscii(h))
  {
    forall i | 0 < i < |h| - 1
      ensures Separates(LowerAscii(h), i)
    {
      assert Separates(h, i);
    }
  }

  /** Lowering a valid name leaves it valid. */
  lemma LoweredFollowsRules(h: Bytes)
    requires HostnameRules(h)
    ensures HostnameRules(LowerAscii(h))
  {
    LoweredStaysShort(h);
    LoweredStaysSeparated(h);
    forall i | 0 <= i < |h|
      ensures var b := LowerAscii(h)[i]; IsAlphanumeric(b) || b == HYPHEN || b == DOT
    {
      LoweredByteKind(h[i]);
    }
  }

  lemma HostOfValueGood(value: Bytes)
    ensures GoodAnswer(HostOfValue(value))
  {
    if HostOfValue(value).Some? {
      var host := value[..IndexOf(value, COLON)];
      ValidHostnamesFollowRules(host);
      LoweredFollowsRules(host);
    }
  }

  lemma LineHostGood(raw: Bytes)
    ensures GoodAnswer(LineHost(raw))
  {
    if IsHostHeader(Trim(raw)) {
      HostOfValueGood(Trim(Trim(raw)[5..]));
    }
  }

  lemma {:induction false} HostScanGood(d: Bytes)
    ensures GoodAnswer(HostScan(d))
    decreases |d|
  {
    if d != [] {
      var n := IndexOf(d, LF);
      LineHostGood(d[..n]);
      if n < |d| {
        HostScanGood(d[n + 1..]);
      }
    }
  }

  /** Whatever bytes it is given, the parser answers only lower-case names that obey the rules. */
  lemma HttpAnswersAreHostnames(data: Bytes)
    ensures GoodAnswer(HostOf(data))
  {
    HostScanGood(data);
  }

  // ---- Requests yield their host -------------------------------------------------------------------

  const HOST_FIELD: Bytes := [72, 111, 115, 116, 58, 32]
  const CR: Byte := 13

  predicate Untrimmed(v: Bytes) { v != [] && SpaceAtFront(v) == 0 && SpaceAtEnd(v) == 0 }

  lemma FieldThenValueEnds(v: Bytes)
    requires Untrimmed(v)
    ensures SpaceAtEnd(HOST_FIELD + v) == 0
  {
    var d := HOST_FIELD + v;
    assert d[|d| - 1] == v[|v| - 1];
    assert |v| >= 2 ==> d[|d| - 2] == v[|v| - 2];
    assert |v| >= 3 ==> d[|d| - 3] == v[|v| - 3];
  }

  lemma TrimEndDropsOne(d: Bytes, b: Byte)
    requires IsAsciiSpace(b) && SpaceAtEnd(d) == 0
    ensures TrimEnd(d + [b]) == d
  {
    assert (d + [b])[..|d|] == d;
  }

  lemma TrimmedHeaderLine(v: Bytes)
    requires Untrimmed(v)
    ensures Trim(HOST_FIELD + v + [CR]) == HOST_FIELD + v
  {
    var raw := HOST_FIELD + v + [CR];
    assert raw[0] == 72 && TrimStart(raw) == raw;
    FieldThenValueEnds(v);
    TrimEndDropsOne(HOST_FIELD + v, CR);
  }

  lemma FieldIsHostHeader(v: Bytes)
    ensures IsHostHeader(HOST_FIELD + v)
  {
    var d := HOST_FIELD + v;
    assert d[..5] == [72, 111, 115, 116, 58];
    assert LowerAscii(d[..5]) == [104, 111, 115, 116, 58];
    assert Ascii("host:") == [104, 111, 115, 116, 58];
  }

  lemma TrimmedValue(v: Bytes)
    requires Untrimmed(v)
    ensures Trim((HOST_FIELD + v)[5..]) == v
  {
    var d := (HOST_FIELD + v)[5..];
    assert d[0] == 32 && d[1..] == v;
    assert TrimStart(d) == TrimStart(v);
  }

  /** A header line gives the host its value names. */
  lemma HeaderLineGivesHost(v: Bytes)
    requires Untrimmed(v)
    ensures LineHost(HOST_FIELD + v + [CR]) == HostOfValue(v)
  {
    TrimmedHeaderLine(v);
    FieldIsHostHeader(v);
    TrimmedValue(v);
  }

  lemma ValidBytes(host: Bytes)
    requires IsValidHostname(host)
    ensures forall i :: 0 <= i < |host| ==> host[i] < 128 && !IsAsciiSpace(host[i]) && host[i] != COLON
  {
    ValidHostnamesFollowRules(host);
  }

  lemma IndexIs(d: Bytes, b: Byte, n: nat)
    requires n <= |d| && (n < |d| ==> d[n] == b) && forall i :: 0 <= i < n ==> d[i] != b
    ensures IndexOf(d, b) == n
  {
    IndexIsFirst(d, b);
  }

  lemma HostOfPlainValue(host: Bytes, port: Bytes)
    requires IsValidHostname(host) && (port == [] || port[0] == COLON)
    ensures HostOfValue(host + port) == Some(LowerAscii(host))
  {
    ValidBytes(host);
    var v := host + port;
    assert forall i :: 0 <= i < |host| ==> v[i] == host[i];
    assert port != [] ==> v[|host|] == COLON;
    IndexIs(v, COLON, |host|);
    assert v[..|host|] == host;
  }

  function Lines(ls: seq<Bytes>): Bytes {
    if ls == [] then [] else ls[0] + [CR, LF] + Lines(ls[1..])
  }

  /** Lines that are no Host header with a valid name. */
  ghost predicate NoHostIn(ls: seq<Bytes>) {
    forall i :: 0 <= i < |ls| ==> LF !in ls[i] && LineHost(ls[i] + [CR]).None?
  }

  lemma ScanLine(line: Bytes, rest: Bytes)
    requires LF !in line
    ensures HostScan(line + [CR, LF] + rest)
            == if LineHost(line + [CR]).Some? then LineHost(line + [CR]) else HostScan(rest)
  {
    var d, n := line + [CR, LF] + rest, |line| + 1;
    assert d[n] == LF;
    assert forall i :: 0 <= i < n ==> d[i] == (line + [CR])[i];
    IndexIs(d, LF, n);
    assert d[..n] == line + [CR] && d[n + 1..] == rest;
  }

  lemma {:induction false} ScanSkipsLines(ls: seq<Bytes>, rest: Bytes)
    requires NoHostIn(ls)
    ensures HostScan(Lines(ls) + rest) == HostScan(rest)
  {
    if ls == [] {
      assert Lines(ls) + rest == rest;
    } else {
      ScanSkipsLines(ls[1..], rest);
      Associate(ls[0] + [CR, LF], Lines(ls[1..]), rest);
      ScanLine(ls[0], Lines(ls[1..]) + rest);
    }
  }

  /**
   * A request whose lines before its Host header name no host yields that header's host in
   * lower case and without port, whatever follows.
   */
  lemma RequestYieldsHost(before: seq<Bytes>, host: Bytes, port: Bytes, rest: Bytes)
    requires NoHostIn(before) && IsValidHostname(host)
    requires (port == [] || port[0] == COLON) && LF !in port && Untrimmed(host + port)
    requires var data := Lines(before) + (HOST_FIELD + (host + port) + [CR, LF] + rest);
             IsUtf8(data) && StartsWithMethod(data)
    ensures HostOf(Lines(before) + (HOST_FIELD + (host + port) + [CR, LF] + rest)) == Some(LowerAscii(host))
  {
    HostOfPlainValue(host, port);
    HeaderLineGivesHost(host + port);
    NoLineFeed(host, port);
    ScanLine(HOST_FIELD + (host + port), rest);
    ScanSkipsLines(before, HOST_FIELD + (host + port) + [CR, LF] + rest);
  }

  lemma NoLineFeed(host: Bytes, port: Bytes)
    requires IsValidHostname(host) && LF !in port
    ensures LF !in HOST_FIELD + (host + port)
  {
    ValidBytes(host);
  }
}
