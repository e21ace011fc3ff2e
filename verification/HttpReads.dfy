/**
 * Reading HTTP requests: a read may reach beyond the end of the header, so how much is
 * buffered depends on how the stream is cut. This says when the reported host does not.
 */
module HttpReads {
  import opened Common
  import opened ClientHello
  import opened Hostname
  import opened HttpHost
  import opened Sniffer

  // ---- Where the header ends -----------------------------------------------------------------

  /** The header is complete with the first `end` bytes, and not before. */
  predicate EndsHeader(stream: Bytes, end: nat) {
    0 < end <= |stream| && HasHeaderEnd(stream[..end]) && !HasHeaderEnd(stream[..end - 1])
  }

  lemma EndsFrom(stream: Bytes, i: nat, m: nat, n: nat)
    requires m <= |stream| && i + 4 <= n <= |stream| && i + 4 <= m && [13, 10, 13, 10] <= stream[..m][i..]
    ensures HasHeaderEnd(stream[..n])
  {
    assert stream[..n][i..][..4] == stream[..m][i..][..4];
  }

  lemma HeaderEndStays(stream: Bytes, m: nat, n: nat)
    requires m <= n <= |stream| && HasHeaderEnd(stream[..m])
    ensures HasHeaderEnd(stream[..n])
  {
    var i :| 0 <= i <= m - 4 && [13, 10, 13, 10] <= stream[..m][i..];
    EndsFrom(stream, i, m, n);
  }

  lemma HeaderEndExactly(stream: Bytes, end: nat, n: nat)
    requires EndsHeader(stream, end) && n <= |stream|
    ensures HasHeaderEnd(stream[..n]) <==> end <= n
  {
    if end <= n {
      HeaderEndStays(stream, end, n);
    } else if HasHeaderEnd(stream[..n]) {
      HeaderEndStays(stream, n, end - 1);
    }
  }

  lemma HeaderEndsLine(stream: Bytes, end: nat)
    requires EndsHeader(stream, end)
    ensures end >= 4 && stream[end - 1] == LF
  {
    var i :| 0 <= i <= end - 4 && [13, 10, 13, 10] <= stream[..end][i..];
    if i + 4 < end {
      EndsFrom(stream, i, end, end - 1);
    }
    assert i + 4 == end;
    assert stream[..end][i..][3] == 10;
  }

  // ---- Where reading stops -------------------------------------------------------------------

  predicate IsMethod(word: Bytes) {
    word in {Ascii("GET "), Ascii("POST "), Ascii("CONNECT "), Ascii("HEAD "), Ascii("PUT "),
             Ascii("DELETE "), Ascii("OPTIONS ")}
  }

  lemma FindMethod(data: Bytes) returns (word: Bytes)
    requires StartsWithMethod(data)
    ensures IsMethod(word) && StartsWith(data, word)
  {
    word :| IsMethod(word) && StartsWith(data, word);
  }

  lemma MethodStarts(word: Bytes, data: Bytes)
    requires IsMethod(word)
    ensures StartsWith(data, word) ==> StartsWithMethod(data)
    ensures MayStart(word, data) ==> IsHttpRequestPrefix(data)
  {
  }

  lemma PrefixMayStart(word: Bytes, stream: Bytes, n: nat)
    requires StartsWith(stream, word) && n <= |stream|
    ensures MayStart(word, stream[..n])
  {
    if n <= |word| {
      assert stream[..n] == word[..n];
    } else {
      assert stream[..n][..|word|] == word;
    }
  }

  lemma RequestPrefix(stream: Bytes, n: nat)
    requires StartsWithMethod(stream) && n <= |stream|
    ensures IsHttpRequestPrefix(stream[..n])
  {
    var word := FindMethod(stream);
    PrefixMayStart(word, stream, n);
    MethodStarts(word, stream[..n]);
  }

  lemma RequestFirstByte(stream: Bytes)
    requires StartsWithMethod(stream)
    ensures stream != [] && 65 <= stream[0] <= 90
  {
  }

  /** What the reader wants: everything up to the bound before the header ends, nothing more after. */
  lemma RequestRequires(stream: Bytes, end: nat, n: nat)
    requires StartsWithMethod(stream) && EndsHeader(stream, end) && 0 < n <= |stream|
    ensures RequiredLen(stream[..n]) == if end <= n then n else MAX_CLIENT_HELLO_SIZE
  {
    RequestFirstByte(stream);
    RequestPrefix(stream, n);
    HeaderEndExactly(stream, end, n);
    assert stream[..n][0] == stream[0];
  }

  /** The last point any read can reach: the read that completes the header starts before its end. */
  function Reach(len: nat, end: nat): nat { Min(end - 1 + CHUNK, Min(MAX_CLIENT_HELLO_SIZE, len)) }

  function NextSize(len: nat, event: Event, n: nat): nat
    requires n < len && n < MAX_CLIENT_HELLO_SIZE && event.Deliver?
  {
    ReadSize(event.size, Min(MAX_CLIENT_HELLO_SIZE - n, CHUNK), len - n)
  }

  /** Where reading a request of `len` bytes stops whose header ends at `end`; the bytes do not matter. */
  function StopOf(len: nat, end: nat, schedule: Schedule, k: nat, n: nat): nat
    requires end <= len && end <= MAX_CLIENT_HELLO_SIZE
    decreases len - n
  {
    if end <= n || !schedule(k).Deliver? then n
    else StopOf(len, end, schedule, k + 1, n + NextSize(len, schedule(k), n))
  }

  ghost predicate Begins(stream: Bytes, end: nat) {
    StartsWithMethod(stream) && EndsHeader(stream, end) && end <= MAX_CLIENT_HELLO_SIZE
  }

  /** One round of the reading loop on a request. */
  lemma RequestRound(stream: Bytes, schedule: Schedule, k: nat, n: nat, end: nat)
    requires Begins(stream, end) && 0 < n <= |stream| && n <= MAX_CLIENT_HELLO_SIZE
    ensures end <= n || !schedule(k).Deliver? ==> Consumed(stream, schedule, k, n) == n
    ensures n < end && schedule(k).Deliver? ==>
              Consumed(stream, schedule, k, n)
              == Consumed(stream, schedule, k + 1, n + NextSize(|stream|, schedule(k), n))
  {
    RequestRequires(stream, end, n);
  }

  lemma RoundFollows(stream: Bytes, schedule: Schedule, k: nat, n: nat, end: nat, stop: nat)
    requires Begins(stream, end) && 0 < n < end && schedule(k).Deliver?
    requires Consumed(stream, schedule, k + 1, n + NextSize(|stream|, schedule(k), n)) == stop
    requires StopOf(|stream|, end, schedule, k + 1, n + NextSize(|stream|, schedule(k), n)) == stop
    ensures Consumed(stream, schedule, k, n) == stop == StopOf(|stream|, end, schedule, k, n)
  {
    RequestRound(stream, schedule, k, n, end);
  }

  lemma {:induction false} RequestStops(stream: Bytes, schedule: Schedule, k: nat, n: nat, end: nat)
    requires Begins(stream, end) && 0 < n <= |stream| && n <= MAX_CLIENT_HELLO_SIZE
    ensures Consumed(stream, schedule, k, n) == StopOf(|stream|, end, schedule, k, n)
    decreases |stream| - n
  {
    if end <= n || !schedule(k).Deliver? {
      RequestRound(stream, schedule, k, n, end);
    } else {
      var next := n + NextSize(|stream|, schedule(k), n);
      RequestStops(stream, schedule, k + 1, next, end);
      RoundFollows(stream, schedule, k, n, end, Consumed(stream, schedule, k + 1, next));
    }
  }

  lemma RequestStopsAt(stream: Bytes, schedule: Schedule, end: nat)
    requires Begins(stream, end) && Delivers(schedule)
    ensures Consumed(stream, schedule, 0, 0) == StopOf(|stream|, end, schedule, 1, 1)
  {
    HeaderEndsLine(stream, end);
    assert stream[..0] == [];
    RequestStops(stream, schedule, 1, 1, end);
  }

  lemma {:induction false} StopIsInReach(len: nat, end: nat, schedule: Schedule, k: nat, n: nat)
    requires Delivers(schedule) && 0 < end <= len && end <= MAX_CLIENT_HELLO_SIZE && n <= Reach(len, end)
    ensures end <= StopOf(len, end, schedule, k, n) <= Reach(len, end)
    decreases len - n
  {
    if n < end {
      StopIsInReach(len, end, schedule, k + 1, n + NextSize(len, schedule(k), n));
    }
  }

  /** However the stream is cut, reading stops at the end of the header or within one read of it. */
  lemma RequestReadsStop(stream: Bytes, schedule: Schedule, end: nat)
    requires Begins(stream, end) && Delivers(schedule)
    ensures end <= Consumed(stream, schedule, 0, 0) <= Reach(|stream|, end)
  {
    HeaderEndsLine(stream, end);
    RequestStopsAt(stream, schedule, end);
    StopIsInReach(|stream|, end, schedule, 1, 1);
  }

  /** One byte at a time up to the end of the header, and then up to `n`. */
  function StopAt(end: nat, n: nat): Schedule {
    k => Deliver(if k + 1 < end then 1 else if n + 1 < end then 0 else n + 1 - end)
  }

  lemma {:induction false} StopsThere(len: nat, end: nat, schedule: Schedule, k: nat, n: nat)
    requires end <= len && end <= MAX_CLIENT_HELLO_SIZE && schedule == StopAt(end, n)
    requires k < end <= n <= Reach(len, end)
    ensures StopOf(len, end, schedule, k, k) == n
    decreases end - k
  {
    if k + 1 < end {
      assert NextSize(len, schedule(k), k) == 1;
      StopsThere(len, end, schedule, k + 1, n);
    } else {
      assert NextSize(len, schedule(k), k) == n - k;
    }
  }

  /** And every such point is where some way of cutting the stream stops. */
  lemma StopsAnywhere(stream: Bytes, end: nat, n: nat)
    requires Begins(stream, end) && end <= n <= Reach(|stream|, end)
    ensures Delivers(StopAt(end, n)) && Consumed(stream, StopAt(end, n), 0, 0) == n
  {
    HeaderEndsLine(stream, end);
    RequestStopsAt(stream, StopAt(end, n), end);
    StopsThere(|stream|, end, StopAt(end, n), 1, n);
  }

  // ---- Text with something behind it -----------------------------------------------------------

  lemma CharStays(a: Bytes, b: Bytes)
    requires CharLen(a) > 0
    ensures CharLen(a + b) == CharLen(a)
  {
    assert forall i :: 0 <= i < |a| ==> (a + b)[i] == a[i];
  }

  lemma {:induction false} Utf8Splits(a: Bytes, b: Bytes)
    requires IsUtf8(a)
    ensures IsUtf8(a + b) <==> IsUtf8(b)
    decreases |a|
  {
    if a == [] {
      assert a + b == b;
    } else {
      CharStays(a, b);
      assert (a + b)[CharLen(a)..] == a[CharLen(a)..] + b;
      Utf8Splits(a[CharLen(a)..], b);
    }
  }

  predicate IsPlain(d: Bytes, lo: nat, hi: nat)
    requires hi <= |d|
  {
    forall i :: lo <= i < hi ==> d[i] < 128
  }

  lemma {:induction false} PlainStaysUtf8(d: Bytes, lo: nat, hi: nat)
    requires lo <= hi <= |d| && IsUtf8(d[..lo]) && IsPlain(d, lo, hi)
    ensures IsUtf8(d[..hi])
    decreases hi
  {
    if lo < hi {
      PlainStaysUtf8(d, lo, hi - 1);
      NextByte(d, hi - 1);
    }
  }

  lemma OneByte(b: Byte)
    ensures IsUtf8([b]) <==> b < 128
  {
    assert b < 128 ==> [b][CharLen([b])..] == [];
  }

  /** Behind valid text, one byte more is valid exactly if it is ASCII. */
  lemma NextByte(d: Bytes, n: nat)
    requires n < |d| && IsUtf8(d[..n])
    ensures IsUtf8(d[..n + 1]) <==> d[n] < 128
  {
    assert d[..n + 1] == d[..n] + [d[n]];
    Utf8Splits(d[..n], [d[n]]);
    OneByte(d[n]);
  }

  lemma {:induction false} Utf8Throughout(d: Bytes, lo: nat, hi: nat)
    requires lo <= hi <= |d| && forall n :: lo <= n <= hi ==> IsUtf8(d[..n])
    ensures IsPlain(d, lo, hi)
  {
    forall i | lo <= i < hi
      ensures d[i] < 128
    {
      assert IsUtf8(d[..i]) && IsUtf8(d[..i + 1]);
      NextByte(d, i);
    }
  }

  lemma IndexStays(d: Bytes, more: Bytes, n: nat)
    requires n < |d| && n == IndexOf(d, LF)
    ensures IndexOf(d + more, LF) == n
  {
    IndexIsFirst(d, LF);
    assert forall i :: 0 <= i < |d| ==> (d + more)[i] == d[i];
    IndexIs(d + more, LF, n);
  }

  lemma ScanFirst(d: Bytes, n: nat, line: Bytes, rest: Bytes)
    requires n < |d| && n == IndexOf(d, LF) && d[..n] == line && d[n + 1..] == rest
    ensures HostScan(d) == if LineHost(line).Some? then LineHost(line) else HostScan(rest)
  {
  }

  lemma SplitStays(d: Bytes, more: Bytes, n: nat)
    requires n < |d|
    ensures (d + more)[..n] == d[..n] && (d + more)[n + 1..] == d[n + 1..] + more
  {
  }

  /** Text in which every line ends with a line feed. */
  predicate WholeLines(d: Bytes) { d != [] && d[|d| - 1] == LF }

  lemma FirstOfLines(d: Bytes) returns (n: nat, line: Bytes, rest: Bytes)
    requires WholeLines(d)
    ensures n < |d| && n == IndexOf(d, LF) && line == d[..n] && rest == d[n + 1..]
    ensures |rest| < |d| && (rest == [] || WholeLines(rest))
  {
    IndexIsFirst(d, LF);
    n := IndexOf(d, LF);
    line, rest := d[..n], d[n + 1..];
  }

  /** A host found in complete lines is found whatever follows. */
  lemma {:induction false} HostScanStays(d: Bytes, more: Bytes, all: Bytes)
    requires WholeLines(d) && HostScan(d).Some? && all == d + more
    ensures HostScan(all) == HostScan(d)
    decreases |d|
  {
    var n, line, rest := FirstOfLines(d);
    IndexStays(d, more, n);
    SplitStays(d, more, n);
    ScanFirst(d, n, line, rest);
    ScanFirst(all, n, line, rest + more);
    if LineHost(line).None? {
      HostScanStays(rest, more, rest + more);
    }
  }

  // ---- What is reported ------------------------------------------------------------------------

  lemma WordStays(head: Bytes, more: Bytes, word: Bytes)
    requires StartsWith(head, word)
    ensures StartsWith(head + more, word)
  {
    assert (head + more)[..|word|] == head[..|word|];
  }

  lemma MethodStays(head: Bytes, more: Bytes)
    requires StartsWithMethod(head)
    ensures StartsWithMethod(head + more)
  {
    var word := FindMethod(head);
    WordStays(head, more, word);
    MethodStarts(word, head + more);
  }

  lemma NoSniInText(data: Bytes)
    requires data != [] && data[0] != 0x16
    ensures TlsSni(data) == None
  {
  }

  /** What a buffer that holds the whole header is taken for. */
  lemma ClassifiedRequest(head: Bytes, more: Bytes, host: Bytes)
    requires StartsWithMethod(head) && WholeLines(head) && HostScan(head) == Some(host)
    ensures Classify(head + more)
            == if IsUtf8(head + more) then SniffResult(Http, Some(host), head + more)
               else SniffResult(Unknown, None, head + more)
  {
    MethodStays(head, more);
    RequestFirstByte(head + more);
    NoSniInText(head + more);
    HostScanStays(head, more, head + more);
  }

  /** The stream begins with a request whose header ends within the bound and names a host. */
  predicate IsRequest(stream: Bytes, end: nat, host: Bytes) {
    && EndsHeader(stream, end) && end <= MAX_CLIENT_HELLO_SIZE
    && StartsWithMethod(stream[..end]) && HostScan(stream[..end]) == Some(host)
  }

  lemma ReportedAt(stream: Bytes, end: nat, n: nat, host: Bytes)
    requires IsRequest(stream, end, host) && end <= n <= |stream|
    ensures Classify(stream[..n])
            == if IsUtf8(stream[..n]) then SniffResult(Http, Some(host), stream[..n])
               else SniffResult(Unknown, None, stream[..n])
  {
    HeaderEndsLine(stream, end);
    ClassifiedRequest(stream[..end], stream[end..n], host);
    assert stream[..n] == stream[..end] + stream[end..n];
  }

  lemma RequestStarts(stream: Bytes, end: nat, host: Bytes)
    requires IsRequest(stream, end, host)
    ensures StartsWithMethod(stream)
  {
    MethodStays(stream[..end], stream[end..]);
    assert stream == stream[..end] + stream[end..];
  }

  ghost predicate Reports(stream: Bytes, schedule: Schedule, host: Bytes) {
    var result := Classify(stream[..Consumed(stream, schedule, 0, 0)]);
    result.traffic == Http && result.domain == Some(host)
  }

  ghost predicate AlwaysReports(stream: Bytes, host: Bytes) {
    forall schedule :: Delivers(schedule) ==> Reports(stream, schedule, host)
  }

  /** The header is text, and what one read can reach behind it is ASCII. */
  predicate PlainInReach(stream: Bytes, end: nat)
    requires 0 < end <= |stream|
  {
    IsUtf8(stream[..end]) && IsPlain(stream, end, Reach(|stream|, end))
  }

  lemma ReportsInReach(stream: Bytes, end: nat, schedule: Schedule, host: Bytes)
    requires IsRequest(stream, end, host) && PlainInReach(stream, end) && Delivers(schedule)
    ensures Reports(stream, schedule, host)
  {
    var n := Consumed(stream, schedule, 0, 0);
    RequestStarts(stream, end, host);
    RequestReadsStop(stream, schedule, end);
    PlainStaysUtf8(stream, end, n);
    ReportedAt(stream, end, n, host);
  }

  lemma AllStopsAreUtf8(stream: Bytes, end: nat, host: Bytes, n: nat)
    requires IsRequest(stream, end, host) && AlwaysReports(stream, host) && end <= n <= Reach(|stream|, end)
    ensures IsUtf8(stream[..n])
  {
    RequestStarts(stream, end, host);
    StopsAnywhere(stream, end, n);
    assert Reports(stream, StopAt(end, n), host);
    ReportedAt(stream, end, n, host);
  }

  /**
   * A request whose header names a host and ends within the bound is reported with that host
   * however the stream is cut, if and only if the header is valid text and the bytes one read
   * can reach behind it are ASCII.
   */
  lemma HostReportedExactly(stream: Bytes, end: nat, host: Bytes)
    requires IsRequest(stream, end, host)
    ensures AlwaysReports(stream, host) <==> PlainInReach(stream, end)
  {
    if PlainInReach(stream, end) {
      forall schedule | Delivers(schedule)
        ensures Reports(stream, schedule, host)
      {
        ReportsInReach(stream, end, schedule, host);
      }
    }
    if AlwaysReports(stream, host) {
      forall n | end <= n <= Reach(|stream|, end)
        ensures IsUtf8(stream[..n])
      {
        AllStopsAreUtf8(stream, end, host, n);
      }
      Utf8Throughout(stream, end, Reach(|stream|, end));
    }
  }

  // ---- An input ---------------------------------------------------------------------------------

  /** "GET /", "Host: a" and an empty line, then one byte that is not ASCII. */
  const BINARY_BODY: Bytes :=
    [71, 69, 84, 32, 47, 13, 10, 72, 111, 115, 116, 58, 32, 97, 13, 10, 13, 10, 255]

  lemma GetLineNamesNoHost(line: Bytes)
    requires line == [71, 69, 84, 32, 47]
    ensures LineHost(line + [CR]).None?
  {
    var raw := line + [CR];
    assert TrimStart(raw) == raw;
    assert SpaceAtEnd(line) == 0;
    TrimEndDropsOne(line, CR);
    assert LowerAscii(line[..5])[0] == 103 && Ascii("host:")[0] == 104;
  }

  lemma ShortName(host: Bytes)
    requires host == [97]
    ensures IsValidHostname(host)
  {
    ValidHostnamesFollowRules(host);
  }

  lemma HostLineNamesHost(host: Bytes)
    requires host == [97]
    ensures LineHost(HOST_FIELD + host + [CR]) == Some(host)
  {
    ShortName(host);
    HostOfPlainValue(host, []);
    assert host + [] == host;
    HeaderLineGivesHost(host);
    assert LowerAscii(host) == host;
  }

  lemma SecondLineNamesHost(a: Bytes, b: Bytes, tail: Bytes, all: Bytes)
    requires LF !in a && LF !in b && all == a + [CR, LF] + (b + [CR, LF] + tail)
    requires LineHost(a + [CR]).None? && LineHost(b + [CR]).Some?
    ensures HostScan(all) == LineHost(b + [CR])
  {
    ScanLine(a, b + [CR, LF] + tail);
    ScanLine(b, tail);
  }

  lemma HeadIs(get: Bytes, host: Bytes, head: Bytes)
    requires get == [71, 69, 84, 32, 47] && host == [97] && head == BINARY_BODY[..18]
    ensures head == get + [CR, LF] + (HOST_FIELD + host + [CR, LF] + [CR, LF])
    ensures LF !in get && LF !in HOST_FIELD + host
  {
  }

  lemma HeadNamesHost(get: Bytes, host: Bytes, head: Bytes)
    requires get == [71, 69, 84, 32, 47] && host == [97] && head == BINARY_BODY[..18]
    ensures HostScan(head) == Some(host)
  {
    GetLineNamesNoHost(get);
    HostLineNamesHost(host);
    HeadIs(get, host, head);
    SecondLineNamesHost(get, HOST_FIELD + host, [CR, LF], head);
  }

  lemma HeadEnds(stream: Bytes)
    requires stream == BINARY_BODY
    ensures EndsHeader(stream, 18) && StartsWithMethod(stream[..18])
  {
    assert stream[..18][14..] == [13, 10, 13, 10];
    forall i | 0 <= i <= 13
      ensures !([13, 10, 13, 10] <= stream[..17][i..])
    {
      assert stream[..17][i..][0] == stream[i] && stream[..17][i..][2] == stream[i + 2];
    }
    assert Ascii("GET ") == [71, 69, 84, 32] == stream[..18][..4];
  }

  /** Where the header is followed by a byte that is not ASCII, the host depends on the cut. */
  lemma CutDecides(stream: Bytes, end: nat, host: Bytes)
    requires IsRequest(stream, end, host) && IsUtf8(stream[..end]) && end < MAX_CLIENT_HELLO_SIZE
    requires end < |stream| && stream[end] >= 128
    ensures Delivers(StopAt(end, end)) && Reports(stream, StopAt(end, end), host)
    ensures Delivers(StopAt(end, end + 1)) && !Reports(stream, StopAt(end, end + 1), host)
  {
    RequestStarts(stream, end, host);
    StopsAnywhere(stream, end, end);
    StopsAnywhere(stream, end, end + 1);
    ReportedAt(stream, end, end, host);
    ReportedAt(stream, end, end + 1, host);
    NextByte(stream, end);
  }

  lemma HeadIsText(stream: Bytes)
    requires stream == BINARY_BODY
    ensures IsUtf8(stream[..18])
  {
    assert IsPlain(stream, 0, 18) && IsUtf8(stream[..0]);
    PlainStaysUtf8(stream, 0, 18);
  }

  lemma BinaryBodyIsRequest(stream: Bytes, end: nat, host: Bytes)
    requires stream == BINARY_BODY && end == 18 && host == [97]
    ensures IsRequest(stream, end, host)
  {
    HeadNamesHost([71, 69, 84, 32, 47], host, stream[..18]);
    HeadEnds(stream);
  }

  /** For one: host "a" is reported when only the header is read, and not when the byte behind it is. */
  lemma BinaryBodyHidesHost(stream: Bytes, end: nat, host: Bytes)
    requires stream == BINARY_BODY && end == 18 && host == [97]
    ensures Delivers(StopAt(end, end)) && Reports(stream, StopAt(end, end), host)
    ensures Delivers(StopAt(end, end + 1)) && !Reports(stream, StopAt(end, end + 1), host)
  {
    BinaryBodyIsRequest(stream, end, host);
    HeadIsText(stream);
    CutDecides(stream, end, host);
  }
}
