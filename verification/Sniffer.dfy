/**
 * The bounded reader in front of the protocol parsers: it decides how many bytes it
 * still needs, reads in chunks of whatever size the stream delivers, and hands back
 * exactly the bytes it consumed.
 */
module Sniffer {
  import opened Common
  import opened ClientHello
  import opened HttpHost

  const MAX_CLIENT_HELLO_SIZE: nat := 4096
  const CHUNK: nat := 512

  predicate MayStart(word: Bytes, data: Bytes) {
    StartsWith(word, data) || StartsWith(data, word)
  }

  predicate IsHttpRequestPrefix(data: Bytes) {
    || MayStart(Ascii("GET "), data)
    || MayStart(Ascii("POST "), data)
    || MayStart(Ascii("CONNECT "), data)
    || MayStart(Ascii("HEAD "), data)
    || MayStart(Ascii("PUT "), data)
    || MayStart(Ascii("DELETE "), data)
    || MayStart(Ascii("OPTIONS "), data)
  }

  predicate HasHeaderEnd(data: Bytes) {
    exists i {:trigger data[i..]} :: 0 <= i <= |data| - 4 && [13, 10, 13, 10] <= data[i..]
  }

  predicate LooksTextual(data: Bytes) {
    forall i :: 0 <= i < |data| ==> 33 <= data[i] <= 126 || data[i] in {9, 10, 13}
  }

  function TlsRequiredLen(data: Bytes): nat
    requires |data| > 0
  {
    if |data| < 5 then 5
    else
      var recordEnd := 5 + U16(data[3], data[4]);
      if recordEnd > MAX_CLIENT_HELLO_SIZE then MAX_CLIENT_HELLO_SIZE
      else if |data| < 9 || data[5] != 1 then recordEnd
      else
        var helloEnd := 9 + U24(data[6], data[7], data[8]);
        Min(if recordEnd >= helloEnd then recordEnd else helloEnd, MAX_CLIENT_HELLO_SIZE)
  }

  function RequiredLen(data: Bytes): (r: nat)
    ensures r <= MAX_CLIENT_HELLO_SIZE || r <= |data|
  {
    if data == [] then 1
    else if data[0] == 0x16 then TlsRequiredLen(data)
    else if IsHttpRequestPrefix(data) then
      if HasHeaderEnd(data) then |data| else MAX_CLIENT_HELLO_SIZE
    else if LooksTextual(data) then MAX_CLIENT_HELLO_SIZE
    else 5
  }

  /** How one read ends: with at most `size` bytes (at least one unless the stream is over), or badly. */
  datatype Event = Deliver(size: nat) | TimedOut | ReadFailed

  type Schedule = nat -> Event

  /** Bytes a read of `want` returns when `left` bytes remain in the stream. */
  function ReadSize(size: nat, want: nat, left: nat): nat {
    Min(if size == 0 then 1 else size, Min(want, left))
  }

  predicate Enough(data: Bytes) {
    RequiredLen(data) <= |data| || |data| == MAX_CLIENT_HELLO_SIZE
  }

  /** How many bytes the loop has consumed when it stops, having read `n` before its k-th read. */
  function Consumed(stream: Bytes, schedule: Schedule, k: nat, n: nat): (total: nat)
    requires n <= |stream| && n <= MAX_CLIENT_HELLO_SIZE
    ensures n <= total <= |stream| && total <= MAX_CLIENT_HELLO_SIZE
    decreases |stream| - n
  {
    if Enough(stream[..n]) || !schedule(k).Deliver? then n
    else
      var want := Min(RequiredLen(stream[..n]) - n, CHUNK);
      var got := ReadSize(schedule(k).size, want, |stream| - n);
      if got == 0 then n else Consumed(stream, schedule, k + 1, n + got)
  }

  datatype TrafficType = Tls | Http | Unknown

  datatype SniffResult = SniffResult(traffic: TrafficType, domain: Option<Bytes>, buffered: Bytes)

  /** The HTTP parser sees the buffer only when the TLS parser found no host. */
  function Classify(data: Bytes): SniffResult {
    if TlsSni(data).Some? then SniffResult(Tls, TlsSni(data), data)
    else if HostOf(data).Some? then SniffResult(Http, HostOf(data), data)
    else SniffResult(Unknown, None, data)
  }

  method ClassifyBuffer(buf: Bytes) returns (result: SniffResult)
    ensures result == Classify(buf) && result.buffered == buf
  {
    var sni := ParseTlsSni(buf);
    if sni.Some? {
      return SniffResult(Tls, sni, buf);
    }
    var host := ParseHttpHost(buf);
    if host.Some? {
      return SniffResult(Http, host, buf);
    }
    result := SniffResult(Unknown, None, buf);
  }

  /** The reading loop: the buffer grows to exactly the consumed prefix. */
  method ReadPrefix(stream: Bytes, schedule: Schedule) returns (buf: Bytes)
    ensures buf == stream[..Consumed(stream, schedule, 0, 0)]
  {
    buf := [];
    var k := 0;
    while true
      invariant |buf| <= |stream| && |buf| <= MAX_CLIENT_HELLO_SIZE && buf == stream[..|buf|]
      invariant Consumed(stream, schedule, 0, 0) == Consumed(stream, schedule, k, |buf|)
      decreases |stream| - |buf|
    {
      var required := RequiredLen(buf);
      if required <= |buf| || |buf| == MAX_CLIENT_HELLO_SIZE {
        break;
      }
      var want := Min(required - |buf|, CHUNK);
      match schedule(k) {
        case Deliver(size) =>
          var got := ReadSize(size, want, |stream| - |buf|);
          if got == 0 {
            break;
          }
          buf := buf + stream[|buf|..|buf| + got];
        case TimedOut => break;
        case ReadFailed => break;
      }
      k := k + 1;
    }
  }

  /** Whatever the stream holds and however each read ends, the buffer is what was consumed. */
  method SniffTcp(stream: Bytes, schedule: Schedule) returns (result: SniffResult)
    ensures result == Classify(stream[..Consumed(stream, schedule, 0, 0)])
    ensures result.buffered <= stream && |result.buffered| <= MAX_CLIENT_HELLO_SIZE
    ensures result.traffic == Unknown <==> result.domain == None
  {
    var buf := ReadPrefix(stream, schedule);
    result := ClassifyBuffer(buf);
  }

  // ---- Fragmentation does not matter for TLS --------------------------------------

  ghost predicate Delivers(schedule: Schedule) {
    forall k :: schedule(k).Deliver?
  }

  /** Where the loop stops on a stream that starts like a TLS handshake, read off its header. */
  function StopPoint(stream: Bytes): (p: nat)
    ensures p <= |stream| && p <= MAX_CLIENT_HELLO_SIZE
  {
    if |stream| < 5 then |stream|
    else
      var recordEnd := 5 + U16(stream[3], stream[4]);
      if recordEnd > MAX_CLIENT_HELLO_SIZE then Min(MAX_CLIENT_HELLO_SIZE, |stream|)
      else if recordEnd < 9 || |stream| < 9 || stream[5] != 1 then Min(recordEnd, |stream|)
      else
        var helloEnd := 9 + U24(stream[6], stream[7], stream[8]);
        Min(Min(if recordEnd >= helloEnd then recordEnd else helloEnd, MAX_CLIENT_HELLO_SIZE), |stream|)
  }

  /** Short of the stop point the reader wants more, and never asks for bytes beyond it. */
  lemma WantsUpToStopPoint(stream: Bytes, n: nat)
    requires 0 < n < StopPoint(stream) && stream[0] == 0x16
    ensures !Enough(stream[..n])
    ensures Min(RequiredLen(stream[..n]), |stream|) <= StopPoint(stream)
  {
    var data := stream[..n];
    assert data[0] == 0x16;
    assert forall i :: 0 <= i < n ==> data[i] == stream[i];
  }

  lemma StopsAtStopPoint(stream: Bytes)
    requires stream != [] && stream[0] == 0x16
    ensures Enough(stream[..StopPoint(stream)]) || StopPoint(stream) == |stream|
  {
    var n := StopPoint(stream);
    var data := stream[..n];
    assert forall i :: 0 <= i < n ==> data[i] == stream[i];
  }

  lemma {:induction false} ConsumesUpToStopPoint(stream: Bytes, schedule: Schedule, k: nat, n: nat)
    requires stream != [] && stream[0] == 0x16 && Delivers(schedule)
    requires 0 < n <= StopPoint(stream)
    ensures Consumed(stream, schedule, k, n) == StopPoint(stream)
    decreases |stream| - n
  {
    if n == StopPoint(stream) {
      StopsAtStopPoint(stream);
    } else {
      WantsUpToStopPoint(stream, n);
      var want := Min(RequiredLen(stream[..n]) - n, CHUNK);
      var got := ReadSize(schedule(k).size, want, |stream| - n);
      ConsumesUpToStopPoint(stream, schedule, k + 1, n + got);
    }
  }

  /**
   * On a stream that starts with a handshake record the loop stops at one point, fixed by the
   * stream alone: no way of cutting it into reads changes the buffered prefix.
   */
  lemma TlsReadsStopAtOnePoint(stream: Bytes, schedule: Schedule)
    requires stream != [] && stream[0] == 0x16 && Delivers(schedule)
    ensures Consumed(stream, schedule, 0, 0) == StopPoint(stream)
  {
    assert stream[..0] == [];
    assert RequiredLen(stream[..0]) == 1;
    ConsumesUpToStopPoint(stream, schedule, 1, 1);
  }

  /** Buffered prefix and server name are the same for every fragmentation, end of stream included. */
  lemma FragmentationIndependence(stream: Bytes, s1: Schedule, s2: Schedule)
    requires stream != [] && stream[0] == 0x16 && Delivers(s1) && Delivers(s2)
    ensures Classify(stream[..Consumed(stream, s1, 0, 0)])
            == Classify(stream[..Consumed(stream, s2, 0, 0)])
  {
    TlsReadsStopAtOnePoint(stream, s1);
    TlsReadsStopAtOnePoint(stream, s2);
  }

  /** Whatever the stream holds, a domain that is reported is a lower-case name that obeys the rules. */
  lemma ReportedDomainsAreHostnames(data: Bytes)
    ensures GoodAnswer(Classify(data).domain)
  {
    SniAnswersAreHostnames(data);
    HttpAnswersAreHostnames(data);
  }

  /** A host found in the bounded prefix is the one the whole stream would have given. */
  lemma BoundedAnswerIsFinal(stream: Bytes, schedule: Schedule)
    requires TlsSni(stream[..Consumed(stream, schedule, 0, 0)]).Some?
    ensures TlsSni(stream[..Consumed(stream, schedule, 0, 0)]) == TlsSni(stream)
  {
    var n := Consumed(stream, schedule, 0, 0);
    SniStable(stream[..n], stream[n..]);
    assert stream[..n] + stream[n..] == stream;
  }

  lemma StopPointCoversHead(h: Hello, rest: Bytes)
    requires WellFormed(h) && |RecordHead(h)| <= MAX_CLIENT_HELLO_SIZE
    ensures |RecordHead(h)| <= StopPoint(RecordHead(h) + rest)
  {
    RecordHeader(h, rest);
    BodyHeadFits(h);
  }

  /**
   * End to end: when the server name extension of a well-formed ClientHello ends within the
   * bound, every fragmentation of every stream that begins with it reports its host.
   */
  lemma FragmentedHelloIsRecognised(h: Hello, rest: Bytes, schedule: Schedule)
    requires WellFormed(h) && FirstHost(h.names).Some? && Delivers(schedule)
    requires |RecordHead(h)| <= MAX_CLIENT_HELLO_SIZE
    ensures var stream := RecordHead(h) + rest;
            var result := Classify(stream[..Consumed(stream, schedule, 0, 0)]);
            && result.traffic == Tls && result.domain == FirstHost(h.names)
            && RecordHead(h) <= result.buffered
  {
    var stream, n := RecordHead(h) + rest, |RecordHead(h)|;
    RecordHeader(h, rest);
    TlsReadsStopAtOnePoint(stream, schedule);
    StopPointCoversHead(h, rest);
    var stop := StopPoint(stream);
    assert stream[..stop] == RecordHead(h) + rest[..stop - n];
    WellFormedHelloYieldsHost(h, rest[..stop - n]);
  }

  /** Where the record and the message in it end at the same place, reading stops there. */
  lemma StopsAtMessageEnd(stream: Bytes, end: nat)
    requires |stream| >= 9 && stream[5] == 1 && end <= |stream| && end <= MAX_CLIENT_HELLO_SIZE
    requires 5 + U16(stream[3], stream[4]) == end == 9 + U24(stream[6], stream[7], stream[8])
    ensures StopPoint(stream) == end
  {
  }

  /** A complete ClientHello that fits the bound is buffered exactly, and nothing after it is touched. */
  lemma CompleteHelloIsBufferedExactly(h: Hello, rest: Bytes, schedule: Schedule)
    requires WellFormed(h) && Delivers(schedule) && |Encode(h)| <= MAX_CLIENT_HELLO_SIZE
    ensures (Encode(h) + rest)[..Consumed(Encode(h) + rest, schedule, 0, 0)] == Encode(h)
  {
    var stream := Encode(h) + rest;
    EncodedStream(h, rest);
    TlsReadsStopAtOnePoint(stream, schedule);
    StopsAtMessageEnd(stream, |Encode(h)|);
  }

  lemma EncodedStream(h: Hello, rest: Bytes)
    requires WellFormed(h)
    ensures var stream, n := Encode(h) + rest, |Encode(h)|;
            && |stream| >= 9 && stream[0] == 0x16 && stream[5] == 1
            && 5 + U16(stream[3], stream[4]) == n == 9 + U24(stream[6], stream[7], stream[8])
  {
    Associate(RecordHead(h), EncodeExtensions(h.after), rest);
    RecordHeader(h, EncodeExtensions(h.after) + rest);
    EncodedLength(h);
  }

  lemma EncodedLength(h: Hello)
    requires WellFormed(h)
    ensures |Encode(h)| == 9 + BodyLen(h)
  {
    RecordHeader(h, EncodeExtensions(h.after));
    BodyHeadFits(h);
  }
}
