/**
 * Reading a link dump: messages inside datagrams, links inside messages, and the loop
 * that drains datagrams until the kernel says the dump is done.
 */
module LinkDump {
  import opened Common
  import opened Netlink

  const NLMSG_ERROR: nat := 2
  const NLMSG_DONE: nat := 3
  const RTM_NEWLINK: nat := 16
  const NLM_F_DUMP_INTR: nat := 0x10
  const IFLA_ADDRESS: nat := 1
  const IFLA_IFNAME: nat := 3
  const IFLA_MASTER: nat := 10
  const IFLA_LINKINFO: nat := 18
  const IFLA_INFO_KIND: nat := 1

  // ---- One link ----------------------------------------------------------------------

  /** Names are the bytes before the lossy text conversion. */
  datatype Link = Link(
    ifindex: nat,
    name: Bytes,
    arphrd: nat,
    flags: nat,
    master: Option<nat>,
    kind: Option<Bytes>,
    mac: Option<Bytes>)

  datatype Attrs = Attrs(name: Option<Bytes>, master: Option<nat>, kind: Option<Bytes>, mac: Option<Bytes>)

  const NO_ATTRS := Attrs(None, None, None, None)

  /** The bytes up to the first zero. */
  function CString(payload: Bytes): (s: Bytes)
    ensures s <= payload && 0 !in s
    ensures |s| < |payload| ==> payload[|s|] == 0
  {
    if payload == [] || payload[0] == 0 then [] else [payload[0]] + CString(payload[1..])
  }

  function LastKind(kind: Option<Bytes>, visits: seq<Visit>): Option<Bytes>
    decreases |visits|
  {
    if visits == [] then kind
    else LastKind(if visits[0].ty == IFLA_INFO_KIND then Some(CString(visits[0].payload)) else kind, visits[1..])
  }

  function Apply(e: Endian, attrs: Attrs, v: Visit): Option<Attrs> {
    if v.ty == IFLA_IFNAME then Some(attrs.(name := Some(CString(v.payload))))
    else if v.ty == IFLA_MASTER then
      if |v.payload| != 4 then None
      else
        var n := U32(e, v.payload[0], v.payload[1], v.payload[2], v.payload[3]);
        Some(attrs.(master := if n == 0 then None else Some(n)))
    else if v.ty == IFLA_LINKINFO then
      var inner := Walk(e, v.payload);
      if !inner.ok then None else Some(attrs.(kind := LastKind(attrs.kind, inner.visits)))
    else if v.ty == IFLA_ADDRESS && |v.payload| == 6 then Some(attrs.(mac := Some(v.payload)))
    else Some(attrs)
  }

  function ApplyAll(e: Endian, attrs: Attrs, visits: seq<Visit>): Option<Attrs>
    decreases |visits|
  {
    if visits == [] then Some(attrs)
    else
      var next := Apply(e, attrs, visits[0]);
      if next.None? then None else ApplyAll(e, next.value, visits[1..])
  }

  function ParseLink(e: Endian, msg: Bytes): Option<Link> {
    if |msg| < 16 then None
    else
      var ifindex := U32(e, msg[4], msg[5], msg[6], msg[7]);
      // A negative or zero index is refused.
      if ifindex == 0 || ifindex >= 0x8000_0000 then None
      else
        var walked := Walk(e, msg[16..]);
        var attrs := ApplyAll(e, NO_ATTRS, walked.visits);
        if attrs.None? || !walked.ok || attrs.value.name.None? || attrs.value.name.value == [] then None
        else
          Some(Link(ifindex, attrs.value.name.value, U16(e, msg[2], msg[3]),
                    U32(e, msg[8], msg[9], msg[10], msg[11]),
                    attrs.value.master, attrs.value.kind, attrs.value.mac))
  }

  /** The bytes before the first zero, found by a scan. */
  method TextBeforeZero(payload: Bytes) returns (text: Bytes)
    ensures text == CString(payload)
  {
    var end := 0;
    while end < |payload| && payload[end] != 0
      invariant 0 <= end <= |CString(payload)|
    {
      end := end + 1;
    }
    text := payload[..end];
  }

  method ReadKind(e: Endian, payload: Bytes, before: Option<Bytes>) returns (kind: Option<Bytes>, ok: bool)
    ensures ok == Walk(e, payload).ok && kind == LastKind(before, Walk(e, payload).visits)
  {
    var visits;
    visits, ok := ForEachAttr(e, payload);
    kind := before;
    assert visits[0..] == visits;
    for i := 0 to |visits|
      invariant LastKind(before, visits) == LastKind(kind, visits[i..])
    {
      assert visits[i..][1..] == visits[i + 1..];
      if visits[i].ty == IFLA_INFO_KIND {
        var text := TextBeforeZero(visits[i].payload);
        kind := Some(text);
      }
    }
  }

  method ReadAttr(e: Endian, attrs: Attrs, v: Visit) returns (next: Option<Attrs>)
    ensures next == Apply(e, attrs, v)
  {
    if v.ty == IFLA_IFNAME {
      var text := TextBeforeZero(v.payload);
      return Some(attrs.(name := Some(text)));
    } else if v.ty == IFLA_MASTER {
      if |v.payload| != 4 {
        return None;
      }
      var raw := U32(e, v.payload[0], v.payload[1], v.payload[2], v.payload[3]);
      return Some(attrs.(master := if raw == 0 then None else Some(raw)));
    } else if v.ty == IFLA_LINKINFO {
      var kind, ok := ReadKind(e, v.payload, attrs.kind);
      if !ok {
        return None;
      }
      return Some(attrs.(kind := kind));
    } else if v.ty == IFLA_ADDRESS && |v.payload| == 6 {
      return Some(attrs.(mac := Some(v.payload)));
    }
    next := Some(attrs);
  }

  method ReadLink(e: Endian, msg: Bytes) returns (link: Option<Link>)
    ensures link == ParseLink(e, msg)
  {
    if |msg| < 16 {
      return None;
    }
    var ifindex := U32(e, msg[4], msg[5], msg[6], msg[7]);
    if ifindex == 0 || ifindex >= 0x8000_0000 {
      return None;
    }
    var attrs := NO_ATTRS;
    var visits, ok := ForEachAttr(e, msg[16..]);
    ghost var whole := ApplyAll(e, NO_ATTRS, visits);
    assert visits[0..] == visits;
    for i := 0 to |visits|
      invariant whole == ApplyAll(e, attrs, visits[i..])
    {
      assert visits[i..][1..] == visits[i + 1..];
      var next := ReadAttr(e, attrs, visits[i]);
      if next.None? {
        return None;
      }
      attrs := next.value;
    }
    if !ok || attrs.name.None? || attrs.name.value == [] {
      return None;
    }
    link := Some(Link(ifindex, attrs.name.value, U16(e, msg[2], msg[3]), U32(e, msg[8], msg[9], msg[10], msg[11]),
                      attrs.master, attrs.kind, attrs.mac));
  }

  // ---- Datagrams -----------------------------------------------------------------------

  datatype Failure = InvalidData | Interrupted | OsError(code: int) | NoDatagram

  datatype Message = Message(ty: nat, flags: nat, sequence: nat, body: Bytes)

  datatype Item = Msg(msg: Message) | Malformed

  function HeaderAt(e: Endian, buf: Bytes): Message
    requires |buf| >= 16 && 16 <= U32(e, buf[0], buf[1], buf[2], buf[3]) <= |buf|
  {
    Message(U16(e, buf[4], buf[5]), U16(e, buf[6], buf[7]), U32(e, buf[8], buf[9], buf[10], buf[11]),
            buf[16..U32(e, buf[0], buf[1], buf[2], buf[3])])
  }

  /** Everything in a datagram, read to its end; a bad length field ends it. */
  function Items(e: Endian, buf: Bytes): seq<Item>
    decreases |buf|
  {
    if |buf| < 16 then []
    else
      var len := U32(e, buf[0], buf[1], buf[2], buf[3]);
      if len < 16 || len > |buf| then [Malformed]
      else [Msg(HeaderAt(e, buf))] + Items(e, buf[Min(Align(len), |buf|)..])
  }

  /** The number behind an error message: a signed field, negated in 32 bits. */
  function ErrorCode(e: Endian, body: Bytes): int
    requires |body| >= 4
  {
    var raw: int := U32(e, body[0], body[1], body[2], body[3]);
    if raw <= 0x8000_0000 then -raw else 0x1_0000_0000 - raw
  }

  predicate IsInterrupted(m: Message) { m.flags / NLM_F_DUMP_INTR % 2 == 1 }

  datatype Verdict = Stop(result: Result<bool, Failure>) | Take(links: seq<Link>)

  /** What the reader makes of the next thing in a datagram. */
  function Judge(e: Endian, item: Item, sequence: nat): Verdict {
    if item.Malformed? then Stop(Err(InvalidData))
    else
      var m := item.msg;
      if m.sequence != sequence then Stop(Ok(false))
      else if IsInterrupted(m) then Stop(Err(Interrupted))
      else if m.ty == NLMSG_DONE then Stop(Ok(true))
      else if m.ty == NLMSG_ERROR then Stop(Err(if |m.body| < 4 then InvalidData else OsError(ErrorCode(e, m.body))))
      else if m.ty == RTM_NEWLINK then
        var link := ParseLink(e, m.body);
        if link.None? then Stop(Err(InvalidData)) else Take([link.value])
      else Take([])
  }

  /** The result of folding a datagram, and the links it contributed before it stopped. */
  datatype Fold = Fold(result: Result<bool, Failure>, links: seq<Link>)

  function FoldItems(e: Endian, items: seq<Item>, sequence: nat): Fold {
    if items == [] then Fold(Ok(false), [])
    else
      match Judge(e, items[0], sequence)
      case Stop(result) => Fold(result, [])
      case Take(links) =>
        var rest := FoldItems(e, items[1..], sequence);
        Fold(rest.result, links + rest.links)
  }

  lemma ItemsStep(e: Endian, buf: Bytes)
    requires |buf| >= 16
    ensures var len := U32(e, buf[0], buf[1], buf[2], buf[3]);
            Items(e, buf) == if len < 16 || len > |buf| then [Malformed]
                             else [Msg(HeaderAt(e, buf))] + Items(e, buf[Min(Align(len), |buf|)..])
  {
  }

  lemma FoldStep(e: Endian, item: Item, rest: seq<Item>, sequence: nat)
    ensures FoldItems(e, [item] + rest, sequence)
            == match Judge(e, item, sequence)
               case Stop(result) => Fold(result, [])
               case Take(links) =>
                 Fold(FoldItems(e, rest, sequence).result, links + FoldItems(e, rest, sequence).links)
  {
    assert ([item] + rest)[1..] == rest;
  }

  method ReadMessage(e: Endian, m: Message, sequence: nat) returns (verdict: Verdict)
    ensures verdict == Judge(e, Msg(m), sequence)
  {
    if m.sequence != sequence {
      return Stop(Ok(false));
    }
    if IsInterrupted(m) {
      return Stop(Err(Interrupted));
    }
    if m.ty == NLMSG_DONE {
      return Stop(Ok(true));
    } else if m.ty == NLMSG_ERROR {
      return Stop(Err(if |m.body| < 4 then InvalidData else OsError(ErrorCode(e, m.body))));
    } else if m.ty == RTM_NEWLINK {
      var link := ReadLink(e, m.body);
      return if link.None? then Stop(Err(InvalidData)) else Take([link.value]);
    }
    verdict := Take([]);
  }

  /** Folds one datagram into `links`; on an error the links gathered so far do not matter. */
  method ParseLinkDatagram(e: Endian, buf: Bytes, sequence: nat, links: seq<Link>)
    returns (result: Result<bool, Failure>, out: seq<Link>)
    ensures result == FoldItems(e, Items(e, buf), sequence).result
    ensures out == links + FoldItems(e, Items(e, buf), sequence).links
  {
    out := links;
    var rest := buf;
    ghost var whole := FoldItems(e, Items(e, buf), sequence);
    while 16 <= |rest|
      invariant whole.result == FoldItems(e, Items(e, rest), sequence).result
      invariant links + whole.links == out + FoldItems(e, Items(e, rest), sequence).links
      decreases |rest|
    {
      ItemsStep(e, rest);
      var len := U32(e, rest[0], rest[1], rest[2], rest[3]);
      if len < 16 || len > |rest| {
        return Err(InvalidData), out;
      }
      var item := Msg(HeaderAt(e, rest));
      var next := rest[Min(Align(len), |rest|)..];
      FoldStep(e, item, Items(e, next), sequence);
      var verdict := ReadMessage(e, item.msg, sequence);
      if verdict.Stop? {
        return verdict.result, out;
      }
      Associate(out, verdict.links, FoldItems(e, Items(e, next), sequence).links);
      out := out + verdict.links;
      rest := next;
    }
    result := Ok(false);
  }

  /** What the socket yields: datagrams, or an error that ends the dump. */
  type Incoming = seq<Option<Bytes>>

  function AddTo(here: Fold, rest: Result<seq<Link>, Failure>): Result<seq<Link>, Failure> {
    match here.result
    case Err(failure) => Err(failure)
    case Ok(true) => Ok(here.links)
    case Ok(false) => if rest.Err? then rest else Ok(here.links + rest.value)
  }

  /** Draining folded datagrams until one of them ends the dump. */
  function Drain(parts: seq<Option<Fold>>): Result<seq<Link>, Failure> {
    if parts == [] || parts[0].None? then Err(NoDatagram) else AddTo(parts[0].value, Drain(parts[1..]))
  }

  function Folded(e: Endian, incoming: Incoming, sequence: nat): seq<Option<Fold>> {
    seq(|incoming|, i requires 0 <= i < |incoming| =>
      if incoming[i].None? then None else Some(FoldItems(e, Items(e, incoming[i].value), sequence)))
  }

  function Dump(e: Endian, incoming: Incoming, sequence: nat): Result<seq<Link>, Failure> {
    Drain(Folded(e, incoming, sequence))
  }

  lemma AddTwice(links: seq<Link>, here: Fold, rest: Result<seq<Link>, Failure>)
    ensures AddTo(Fold(Ok(false), links), AddTo(here, rest)) == AddTo(here.(links := links + here.links), rest)
  {
    if here.result == Ok(false) && rest.Ok? {
      Associate(links, here.links, rest.value);
    }
  }

  lemma AddNothing(rest: Result<seq<Link>, Failure>)
    ensures AddTo(Fold(Ok(false), []), rest) == rest
  {
    assert rest.Ok? ==> [] + rest.value == rest.value;
  }

  lemma DrainFrom(parts: seq<Option<Fold>>, k: nat)
    requires k < |parts| && parts[k].Some?
    ensures Drain(parts[k..]) == AddTo(parts[k].value, Drain(parts[k + 1..]))
  {
    assert parts[k..][1..] == parts[k + 1..];
  }

  method DumpLinks(e: Endian, incoming: Incoming, sequence: nat) returns (result: Result<seq<Link>, Failure>)
    ensures result == Dump(e, incoming, sequence)
  {
    var links := [];
    var k := 0;
    ghost var parts := Folded(e, incoming, sequence);
    assert parts[0..] == parts;
    AddNothing(Drain(parts));
    while true
      invariant 0 <= k <= |incoming|
      invariant Drain(parts) == AddTo(Fold(Ok(false), links), Drain(parts[k..]))
      decreases |incoming| - k
    {
      if k == |incoming| || incoming[k].None? {
        return Err(NoDatagram);
      }
      DrainFrom(parts, k);
      AddTwice(links, parts[k].value, Drain(parts[k + 1..]));
      var done, more := ParseLinkDatagram(e, incoming[k].value, sequence, links);
      match done {
        case Err(failure) => return Err(failure);
        case Ok(finished) =>
          if finished {
            return Ok(more);
          }
          links := more;
      }
      k := k + 1;
    }
  }

  // ---- What a dump that succeeds has read ---------------------------------------------------

  /** A message of this request that neither ends nor spoils the dump. */
  predicate IsPlain(e: Endian, item: Item, sequence: nat) {
    && item.Msg? && item.msg.sequence == sequence && !IsInterrupted(item.msg)
    && item.msg.ty != NLMSG_DONE && item.msg.ty != NLMSG_ERROR
    && (item.msg.ty == RTM_NEWLINK ==> ParseLink(e, item.msg.body).Some?)
  }

  predicate IsDone(item: Item, sequence: nat) {
    item.Msg? && item.msg.sequence == sequence && !IsInterrupted(item.msg) && item.msg.ty == NLMSG_DONE
  }

  predicate IsForeign(item: Item, sequence: nat) {
    item.Msg? && item.msg.sequence != sequence
  }

  function LinksIn(e: Endian, item: Item): seq<Link> {
    if item.Msg? && item.msg.ty == RTM_NEWLINK && ParseLink(e, item.msg.body).Some?
    then [ParseLink(e, item.msg.body).value] else []
  }

  /** The links of the link messages among some items, in order. */
  function NewLinks(e: Endian, items: seq<Item>): seq<Link> {
    if items == [] then [] else LinksIn(e, items[0]) + NewLinks(e, items[1..])
  }

  /** How many items at the front are plain. */
  function PlainLen(e: Endian, items: seq<Item>, sequence: nat): (n: nat)
    ensures n <= |items| && (n < |items| ==> !IsPlain(e, items[n], sequence))
    ensures forall i :: 0 <= i < n ==> IsPlain(e, items[i], sequence)
  {
    if items == [] || !IsPlain(e, items[0], sequence) then 0 else 1 + PlainLen(e, items[1..], sequence)
  }

  lemma JudgedExactly(e: Endian, item: Item, sequence: nat)
    ensures IsPlain(e, item, sequence) <==> Judge(e, item, sequence).Take?
    ensures IsPlain(e, item, sequence) ==> Judge(e, item, sequence).links == LinksIn(e, item)
    ensures IsDone(item, sequence) <==> Judge(e, item, sequence) == Stop(Ok(true))
    ensures IsForeign(item, sequence) <==> Judge(e, item, sequence) == Stop(Ok(false))
  {
  }

  lemma NewLinksFront(e: Endian, items: seq<Item>, n: nat)
    requires 0 < n <= |items|
    ensures NewLinks(e, items[..n]) == LinksIn(e, items[0]) + NewLinks(e, items[1..][..n - 1])
  {
    assert items[..n][1..] == items[1..][..n - 1];
  }

  /**
   * A datagram is folded up to its first item that is not plain. It ends the dump exactly
   * when that item is the request's DONE, and lets it go on exactly when nothing is left or
   * that item belongs to another request.
   */
  lemma {:induction false} DatagramFoldedExactly(e: Endian, items: seq<Item>, sequence: nat)
    ensures var n, fold := PlainLen(e, items, sequence), FoldItems(e, items, sequence);
            && fold.links == NewLinks(e, items[..n])
            && (fold.result == Ok(true) <==> n < |items| && IsDone(items[n], sequence))
            && (fold.result == Ok(false) <==> n == |items| || IsForeign(items[n], sequence))
  {
    if items != [] {
      JudgedExactly(e, items[0], sequence);
      if IsPlain(e, items[0], sequence) {
        DatagramFoldedExactly(e, items[1..], sequence);
        NewLinksFront(e, items, PlainLen(e, items, sequence));
      }
    }
  }

  /** The links of a datagram's plain front. */
  function PlainLinks(e: Endian, buf: Bytes, sequence: nat): seq<Link> {
    NewLinks(e, Items(e, buf)[..PlainLen(e, Items(e, buf), sequence)])
  }

  /** The datagram lets the dump go on: all plain, or plain up to another request's message. */
  predicate Continues(e: Endian, buf: Bytes, sequence: nat) {
    var n := PlainLen(e, Items(e, buf), sequence);
    n == |Items(e, buf)| || IsForeign(Items(e, buf)[n], sequence)
  }

  /** The datagram ends the dump: plain up to this request's DONE. */
  predicate Completes(e: Endian, buf: Bytes, sequence: nat) {
    var n := PlainLen(e, Items(e, buf), sequence);
    n < |Items(e, buf)| && IsDone(Items(e, buf)[n], sequence)
  }

  /** The datagrams before `n` let the dump go on and datagram `n` completes it. */
  ghost predicate ReadThrough(e: Endian, incoming: Incoming, sequence: nat, n: nat) {
    && n < |incoming|
    && (forall i :: 0 <= i < n ==> incoming[i].Some? && Continues(e, incoming[i].value, sequence))
    && incoming[n].Some? && Completes(e, incoming[n].value, sequence)
  }

  /** The links of the plain fronts of datagrams, in arrival order. */
  ghost function Gathered(e: Endian, incoming: Incoming, sequence: nat): seq<Link> {
    if incoming == [] || incoming[0].None? then []
    else PlainLinks(e, incoming[0].value, sequence) + Gathered(e, incoming[1..], sequence)
  }

  ghost predicate StopsAt(parts: seq<Option<Fold>>, n: nat) {
    && n < |parts|
    && (forall i :: 0 <= i < n ==> parts[i].Some? && parts[i].value.result == Ok(false))
    && parts[n].Some? && parts[n].value.result == Ok(true)
  }

  ghost function AllLinks(parts: seq<Option<Fold>>): seq<Link> {
    if parts == [] || parts[0].None? then [] else parts[0].value.links + AllLinks(parts[1..])
  }

  lemma {:induction false} DrainStops(parts: seq<Option<Fold>>, n: nat)
    requires StopsAt(parts, n)
    ensures Drain(parts) == Ok(AllLinks(parts[..n + 1]))
  {
    assert parts[..n + 1][1..] == parts[1..][..n];
    if n == 0 {
      var links := parts[0].value.links;
      assert links + [] == links;
      assert AllLinks(parts[..1][1..]) == [];
    } else {
      assert forall i :: 0 <= i < |parts| - 1 ==> parts[1..][i] == parts[i + 1];
      DrainStops(parts[1..], n - 1);
    }
  }

  lemma {:induction false} DrainedStops(parts: seq<Option<Fold>>) returns (n: nat)
    requires Drain(parts).Ok?
    ensures StopsAt(parts, n)
  {
    n := 0;
    if parts[0].value.result == Ok(false) {
      n := DrainedStops(parts[1..]);
      assert forall i :: 0 < i < |parts| ==> parts[i] == parts[1..][i - 1];
      n := n + 1;
    }
  }

  lemma {:induction false} AllLinksGathered(e: Endian, incoming: Incoming, sequence: nat)
    ensures AllLinks(Folded(e, incoming, sequence)) == Gathered(e, incoming, sequence)
  {
    if incoming != [] && incoming[0].Some? {
      AllLinksGathered(e, incoming[1..], sequence);
      assert Folded(e, incoming, sequence)[1..] == Folded(e, incoming[1..], sequence);
      DatagramFoldedExactly(e, Items(e, incoming[0].value), sequence);
    }
  }

  lemma FoldedExactly(e: Endian, incoming: Incoming, sequence: nat, i: nat)
    requires i < |incoming|
    ensures var part := Folded(e, incoming, sequence)[i];
            && (part.Some? <==> incoming[i].Some?)
            && (part.Some? ==>
                  && (part.value.result == Ok(true) <==> Completes(e, incoming[i].value, sequence))
                  && (part.value.result == Ok(false) <==> Continues(e, incoming[i].value, sequence)))
  {
    if incoming[i].Some? {
      DatagramFoldedExactly(e, Items(e, incoming[i].value), sequence);
    }
  }

  lemma StopsWhereReadThrough(e: Endian, incoming: Incoming, sequence: nat, n: nat)
    ensures StopsAt(Folded(e, incoming, sequence), n) <==> ReadThrough(e, incoming, sequence, n)
  {
    var parts := Folded(e, incoming, sequence);
    if n < |incoming| {
      FoldedExactly(e, incoming, sequence, n);
      forall i | 0 <= i < n
        ensures parts[i].Some? && parts[i].value.result == Ok(false)
                <==> incoming[i].Some? && Continues(e, incoming[i].value, sequence)
      {
        FoldedExactly(e, incoming, sequence, i);
      }
    }
  }

  /**
   * A dump succeeds exactly when it reads through to a completing datagram, and then yields
   * the links of the plain messages before it, in order. A malformed, interrupted or failed
   * message before that point fails the whole dump.
   */
  lemma DumpSucceedsExactly(e: Endian, incoming: Incoming, sequence: nat)
    ensures Dump(e, incoming, sequence).Ok? <==> exists n: nat :: ReadThrough(e, incoming, sequence, n)
    ensures forall n: nat :: ReadThrough(e, incoming, sequence, n) ==>
              Dump(e, incoming, sequence) == Ok(Gathered(e, incoming[..n + 1], sequence))
  {
    var parts := Folded(e, incoming, sequence);
    if Dump(e, incoming, sequence).Ok? {
      var n := DrainedStops(parts);
      StopsWhereReadThrough(e, incoming, sequence, n);
    }
    forall n: nat | ReadThrough(e, incoming, sequence, n)
      ensures Dump(e, incoming, sequence) == Ok(Gathered(e, incoming[..n + 1], sequence))
    {
      StopsWhereReadThrough(e, incoming, sequence, n);
      DrainStops(parts, n);
      AllLinksGathered(e, incoming[..n + 1], sequence);
      assert parts[..n + 1] == Folded(e, incoming[..n + 1], sequence);
    }
  }

  // ---- When nothing of the request is lost ----------------------------------------------------

  /** A link message of this request. */
  predicate IsOwnLink(e: Endian, item: Item, sequence: nat) {
    item.Msg? && item.msg.sequence == sequence && LinksIn(e, item) != []
  }

  /** The links of this request's messages, wherever they stand among the items. */
  function OwnLinks(e: Endian, items: seq<Item>, sequence: nat): seq<Link> {
    if items == [] then []
    else (if IsOwnLink(e, items[0], sequence) then LinksIn(e, items[0]) else []) + OwnLinks(e, items[1..], sequence)
  }

  /** Behind the first `n` items stands a link of this request. */
  ghost predicate OwnLinkBehind(e: Endian, items: seq<Item>, n: nat, sequence: nat) {
    exists i :: n <= i < |items| && IsOwnLink(e, items[i], sequence)
  }

  /** A link of this request stands behind the plain front, where the reader does not look. */
  ghost predicate HidesLink(e: Endian, buf: Bytes, sequence: nat) {
    OwnLinkBehind(e, Items(e, buf), PlainLen(e, Items(e, buf), sequence), sequence)
  }

  ghost predicate NoneHides(e: Endian, incoming: Incoming, n: nat, sequence: nat)
    requires n <= |incoming|
  {
    forall i :: 0 <= i < n && incoming[i].Some? ==> !HidesLink(e, incoming[i].value, sequence)
  }

  /** All links of this request that some datagrams carry, in arrival order. */
  ghost function Carried(e: Endian, incoming: Incoming, sequence: nat): seq<Link> {
    if incoming == [] || incoming[0].None? then []
    else OwnLinks(e, Items(e, incoming[0].value), sequence) + Carried(e, incoming[1..], sequence)
  }

  lemma {:induction false} OwnLinksSplit(e: Endian, items: seq<Item>, sequence: nat)
    ensures var n := PlainLen(e, items, sequence);
            OwnLinks(e, items, sequence) == NewLinks(e, items[..n]) + OwnLinks(e, items[n..], sequence)
  {
    var n := PlainLen(e, items, sequence);
    if n == 0 {
      assert items[..0] == [] && items[0..] == items;
    } else {
      OwnLinksSplit(e, items[1..], sequence);
      NewLinksFront(e, items, n);
      assert items[1..][n - 1..] == items[n..];
      Associate(LinksIn(e, items[0]), NewLinks(e, items[1..][..n - 1]), OwnLinks(e, items[n..], sequence));
    }
  }

  lemma {:induction false} OwnLinksNone(e: Endian, items: seq<Item>, n: nat, sequence: nat)
    requires n <= |items|
    ensures OwnLinks(e, items[n..], sequence) == [] <==> !OwnLinkBehind(e, items, n, sequence)
    decreases |items| - n
  {
    if n < |items| {
      OwnLinksNone(e, items, n + 1, sequence);
      assert items[n..][1..] == items[n + 1..];
    }
  }

  lemma ItemsReadWholeExactly(e: Endian, items: seq<Item>, sequence: nat)
    ensures var own, n := OwnLinks(e, items, sequence), PlainLen(e, items, sequence);
            var plain := NewLinks(e, items[..n]);
            && |plain| <= |own|
            && (|plain| == |own| <==> !OwnLinkBehind(e, items, n, sequence))
            && (|plain| == |own| ==> plain == own)
  {
    OwnLinksSplit(e, items, sequence);
    OwnLinksNone(e, items, PlainLen(e, items, sequence), sequence);
  }

  /** A datagram carries at least the links that are read from it, and just those unless it hides one. */
  lemma DatagramReadWholeExactly(e: Endian, buf: Bytes, sequence: nat)
    ensures var own, plain := OwnLinks(e, Items(e, buf), sequence), PlainLinks(e, buf, sequence);
            && |plain| <= |own|
            && (|plain| == |own| <==> !HidesLink(e, buf, sequence))
            && (|plain| == |own| ==> plain == own)
  {
    ItemsReadWholeExactly(e, Items(e, buf), sequence);
  }

  lemma NoneHidesCons(e: Endian, incoming: Incoming, sequence: nat)
    requires incoming != [] && incoming[0].Some?
    ensures NoneHides(e, incoming, |incoming|, sequence) <==>
            !HidesLink(e, incoming[0].value, sequence) && NoneHides(e, incoming[1..], |incoming| - 1, sequence)
  {
    assert forall i :: 0 < i < |incoming| ==> incoming[i] == incoming[1..][i - 1];
    assert forall i :: 0 <= i < |incoming| - 1 ==> incoming[1..][i] == incoming[i + 1];
  }

  lemma {:induction false} GatheredWholeExactly(e: Endian, incoming: Incoming, sequence: nat)
    requires forall i :: 0 <= i < |incoming| ==> incoming[i].Some?
    ensures var read, all := Gathered(e, incoming, sequence), Carried(e, incoming, sequence);
            && |read| <= |all|
            && (|read| == |all| <==> NoneHides(e, incoming, |incoming|, sequence))
            && (|read| == |all| ==> read == all)
  {
    if incoming != [] {
      GatheredWholeExactly(e, incoming[1..], sequence);
      DatagramReadWholeExactly(e, incoming[0].value, sequence);
      NoneHidesCons(e, incoming, sequence);
    }
  }

  lemma {:induction false} GatheredSnoc(e: Endian, front: Incoming, last: Bytes, sequence: nat)
    requires forall i :: 0 <= i < |front| ==> front[i].Some?
    ensures Gathered(e, front + [Some(last)], sequence)
            == Gathered(e, front, sequence) + PlainLinks(e, last, sequence)
  {
    var all := front + [Some(last)];
    if front == [] {
      assert all[1..] == [];
    } else {
      assert all[1..] == front[1..] + [Some(last)];
      GatheredSnoc(e, front[1..], last, sequence);
      Associate(PlainLinks(e, front[0].value, sequence), Gathered(e, front[1..], sequence),
                PlainLinks(e, last, sequence));
    }
  }

  /** Two lists of which one is the other unless it is shorter, each with the same links behind it. */
  lemma SameExactly(read: seq<Link>, all: seq<Link>, tail: seq<Link>, whole: bool)
    requires (|read| == |all| <==> whole) && (|read| == |all| ==> read == all)
    ensures read + tail == all + tail <==> whole
  {
    assert |read + tail| == |read| + |tail| && |all + tail| == |all| + |tail|;
  }

  lemma NoneHidesFront(e: Endian, incoming: Incoming, n: nat, sequence: nat)
    requires n <= |incoming|
    ensures NoneHides(e, incoming[..n], n, sequence) <==> NoneHides(e, incoming, n, sequence)
  {
    assert forall i :: 0 <= i < n ==> incoming[..n][i] == incoming[i];
  }

  lemma ReadThroughYields(e: Endian, incoming: Incoming, sequence: nat, n: nat)
    requires ReadThrough(e, incoming, sequence, n)
    ensures Dump(e, incoming, sequence)
            == Ok(Gathered(e, incoming[..n], sequence) + PlainLinks(e, incoming[n].value, sequence))
  {
    DumpSucceedsExactly(e, incoming, sequence);
    assert incoming[..n + 1] == incoming[..n] + [incoming[n]];
    GatheredSnoc(e, incoming[..n], incoming[n].value, sequence);
  }

  /**
   * A dump that ends with datagram `n` returns every link of the request, those of datagram `n`
   * up to DONE included, if and only if no earlier datagram holds one behind its plain front.
   */
  lemma NothingIsLostExactly(e: Endian, incoming: Incoming, sequence: nat, n: nat)
    requires ReadThrough(e, incoming, sequence, n)
    ensures Dump(e, incoming, sequence)
            == Ok(Carried(e, incoming[..n], sequence) + PlainLinks(e, incoming[n].value, sequence))
            <==> NoneHides(e, incoming, n, sequence)
  {
    var front, tail := incoming[..n], PlainLinks(e, incoming[n].value, sequence);
    ReadThroughYields(e, incoming, sequence, n);
    GatheredWholeExactly(e, front, sequence);
    NoneHidesFront(e, incoming, n, sequence);
    SameExactly(Gathered(e, front, sequence), Carried(e, front, sequence), tail, NoneHides(e, front, n, sequence));
  }

  // ---- Any split into datagrams reads the same --------------------------------------------------

  predicate MessageSized(m: Message) {
    m.ty < 0x1_0000 && m.flags < 0x1_0000 && m.sequence < 0x1_0000_0000 && 16 + |m.body| < 0x1_0000_0000
  }

  /** The header and body of a message, before padding. */
  function Laid(l: Bytes, t: Bytes, f: Bytes, q: Bytes, body: Bytes): Bytes {
    l + t + f + q + Zeros(4) + body
  }

  function EncodeMessage(e: Endian, m: Message): Bytes
    requires MessageSized(m)
  {
    PadTo4(Laid(Ne32(e, 16 + |m.body|), Ne16(e, m.ty), Ne16(e, m.flags), Ne32(e, m.sequence), m.body))
  }

  predicate AllSized(ms: seq<Message>) {
    forall i :: 0 <= i < |ms| ==> MessageSized(ms[i])
  }

  function EncodeMessages(e: Endian, ms: seq<Message>): Bytes
    requires AllSized(ms)
  {
    if ms == [] then [] else EncodeMessage(e, ms[0]) + EncodeMessages(e, ms[1..])
  }

  function AsItems(ms: seq<Message>): seq<Item> {
    seq(|ms|, i requires 0 <= i < |ms| => Msg(ms[i]))
  }

  lemma LaidFront(l: Bytes, t: Bytes, f: Bytes, q: Bytes, body: Bytes, rest: Bytes)
    requires |l| == 4 && |t| == 2 && |f| == 2 && |q| == 4
    ensures var buf := Laid(l, t, f, q, body) + rest;
            && |buf| == 16 + |body| + |rest|
            && buf[0] == l[0] && buf[1] == l[1] && buf[2] == l[2] && buf[3] == l[3]
            && buf[4] == t[0] && buf[5] == t[1] && buf[6] == f[0] && buf[7] == f[1]
            && buf[8] == q[0] && buf[9] == q[1] && buf[10] == q[2] && buf[11] == q[3]
            && buf[16..16 + |body|] == body && buf[16 + |body|..] == rest
  {
  }

  lemma FrontOfMessage(e: Endian, m: Message, rest: Bytes)
    requires MessageSized(m)
    ensures var buf, len := EncodeMessage(e, m) + rest, 16 + |m.body|;
            && |buf| >= Align(len) && U32(e, buf[0], buf[1], buf[2], buf[3]) == len
            && HeaderAt(e, buf) == m && buf[Align(len)..] == rest
  {
    var len := 16 + |m.body|;
    var l, t, f, q := Ne32(e, len), Ne16(e, m.ty), Ne16(e, m.flags), Ne32(e, m.sequence);
    var pad := Zeros(Align(len) - len);
    LaidFront(l, t, f, q, m.body, pad + rest);
    Associate(Laid(l, t, f, q, m.body), pad, rest);
    var buf := EncodeMessage(e, m) + rest;
    assert buf[len..][|pad|..] == rest;
  }

  lemma ItemsFront(e: Endian, buf: Bytes, m: Message, rest: Bytes)
    requires var len := 16 + |m.body|;
             && |buf| >= Align(len) && U32(e, buf[0], buf[1], buf[2], buf[3]) == len
             && HeaderAt(e, buf) == m && buf[Align(len)..] == rest
    ensures Items(e, buf) == [Msg(m)] + Items(e, rest)
  {
  }

  lemma AsItemsCons(m: Message, ms: seq<Message>)
    ensures AsItems([m] + ms) == [Msg(m)] + AsItems(ms)
  {
  }

  lemma {:induction false} ItemsOfEncoding(e: Endian, ms: seq<Message>)
    requires AllSized(ms)
    ensures Items(e, EncodeMessages(e, ms)) == AsItems(ms)
  {
    if ms != [] {
      var rest := EncodeMessages(e, ms[1..]);
      FrontOfMessage(e, ms[0], rest);
      ItemsFront(e, EncodeMessage(e, ms[0]) + rest, ms[0], rest);
      ItemsOfEncoding(e, ms[1..]);
      AsItemsCons(ms[0], ms[1..]);
      assert ms == [ms[0]] + ms[1..];
    }
  }

  /** The dump of a stream of messages, without any notion of datagrams. */
  function DumpMessages(e: Endian, items: seq<Item>, sequence: nat): Result<seq<Link>, Failure> {
    if items == [] then Err(NoDatagram)
    else
      match Judge(e, items[0], sequence)
      case Stop(Ok(_)) => Ok([])
      case Stop(Err(failure)) => Err(failure)
      case Take(links) => AddTo(Fold(Ok(false), links), DumpMessages(e, items[1..], sequence))
  }

  function Flatten<T>(parts: seq<seq<T>>): seq<T> {
    if parts == [] then [] else parts[0] + Flatten(parts[1..])
  }

  predicate NoneForeign(items: seq<Item>, sequence: nat) {
    forall i :: 0 <= i < |items| ==> !IsForeign(items[i], sequence)
  }

  lemma {:induction false} DumpMessagesSplits(e: Endian, front: seq<Item>, rest: seq<Item>, sequence: nat)
    requires NoneForeign(front, sequence)
    ensures DumpMessages(e, front + rest, sequence)
            == AddTo(FoldItems(e, front, sequence), DumpMessages(e, rest, sequence))
  {
    var more := DumpMessages(e, rest, sequence);
    if front == [] {
      assert front + rest == rest;
      AddNothing(more);
    } else {
      assert (front + rest)[1..] == front[1..] + rest;
      DumpMessagesSplits(e, front[1..], rest, sequence);
      JudgedExactly(e, front[0], sequence);
      if Judge(e, front[0], sequence).Take? {
        AddTwice(Judge(e, front[0], sequence).links, FoldItems(e, front[1..], sequence), more);
      }
    }
  }

  function FoldParts(e: Endian, parts: seq<seq<Item>>, sequence: nat): seq<Option<Fold>> {
    seq(|parts|, i requires 0 <= i < |parts| => Some(FoldItems(e, parts[i], sequence)))
  }

  lemma {:induction false} DrainParts(e: Endian, parts: seq<seq<Item>>, sequence: nat)
    requires forall i :: 0 <= i < |parts| ==> NoneForeign(parts[i], sequence)
    ensures Drain(FoldParts(e, parts, sequence)) == DumpMessages(e, Flatten(parts), sequence)
  {
    if parts != [] {
      DrainParts(e, parts[1..], sequence);
      assert FoldParts(e, parts, sequence)[1..] == FoldParts(e, parts[1..], sequence);
      DumpMessagesSplits(e, parts[0], Flatten(parts[1..]), sequence);
    }
  }

  function ItemParts(parts: seq<seq<Message>>): seq<seq<Item>> {
    seq(|parts|, i requires 0 <= i < |parts| => AsItems(parts[i]))
  }

  lemma {:induction false} FlattenItemParts(parts: seq<seq<Message>>)
    ensures Flatten(ItemParts(parts)) == AsItems(Flatten(parts))
  {
    if parts != [] {
      FlattenItemParts(parts[1..]);
      assert ItemParts(parts)[1..] == ItemParts(parts[1..]);
      assert AsItems(parts[0] + Flatten(parts[1..])) == AsItems(parts[0]) + AsItems(Flatten(parts[1..]));
    }
  }

  ghost predicate Sendable(parts: seq<seq<Message>>, sequence: nat) {
    forall i :: 0 <= i < |parts| ==> AllSized(parts[i]) && NoneForeign(AsItems(parts[i]), sequence)
  }

  function Datagrams(e: Endian, parts: seq<seq<Message>>): Incoming
    requires forall i :: 0 <= i < |parts| ==> AllSized(parts[i])
  {
    seq(|parts|, i requires 0 <= i < |parts| => Some(EncodeMessages(e, parts[i])))
  }

  /**
   * However a request's messages are split into datagrams, the dump is the one of the plain
   * message stream: same links in the same order, or the same failure.
   */
  lemma SplitDoesNotMatter(e: Endian, parts: seq<seq<Message>>, sequence: nat)
    requires Sendable(parts, sequence)
    ensures Dump(e, Datagrams(e, parts), sequence) == DumpMessages(e, AsItems(Flatten(parts)), sequence)
  {
    var folded := Folded(e, Datagrams(e, parts), sequence);
    forall i | 0 <= i < |parts|
      ensures folded[i] == Some(FoldItems(e, ItemParts(parts)[i], sequence))
    {
      ItemsOfEncoding(e, parts[i]);
    }
    assert folded == FoldParts(e, ItemParts(parts), sequence);
    DrainParts(e, ItemParts(parts), sequence);
    FlattenItemParts(parts);
  }
}
