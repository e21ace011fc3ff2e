/**
 * Netlink attributes: a nested, four-aligned, length-prefixed encoding, and the
 * bounds-checked walker that reads it back. Integers have the host's byte order.
 */
module Netlink {
  import opened Common

  datatype Endian = LittleEndian | BigEndian

  function U16(e: Endian, a: Byte, b: Byte): nat {
    if e.LittleEndian? then a + 256 * b else a * 256 + b
  }

  function Ne16(e: Endian, n: nat): (b: Bytes)
    requires n < 0x1_0000
    ensures |b| == 2 && U16(e, b[0], b[1]) == n
  {
    if e.LittleEndian? then [n % 256, n / 256] else [n / 256, n % 256]
  }

  function U32(e: Endian, a: Byte, b: Byte, c: Byte, d: Byte): nat {
    if e.LittleEndian? then U16(e, a, b) + 65536 * U16(e, c, d) else U16(e, a, b) * 65536 + U16(e, c, d)
  }

  function Ne32(e: Endian, n: nat): (b: Bytes)
    requires n < 0x1_0000_0000
    ensures |b| == 4 && U32(e, b[0], b[1], b[2], b[3]) == n
  {
    if e.LittleEndian? then Ne16(e, n % 65536) + Ne16(e, n / 65536)
    else Ne16(e, n / 65536) + Ne16(e, n % 65536)
  }

  const NLMSG_ALIGNTO: nat := 4

  function Align(len: nat): (r: nat)
    ensures len <= r < len + 4 && r % 4 == 0
    ensures len % 4 == 0 ==> r == len
  {
    (len + 3) / 4 * 4
  }

  datatype Attr =
    | U32Attr(value: nat)
    | BytesAttr(bytes: Bytes)
    | StrAttr(text: Bytes)
    | Nested(children: seq<Field>)

  /** An attribute with its type. */
  datatype Field = Field(ty: nat, attr: Attr)

  // ---- Encoding -------------------------------------------------------------------

  function Zeros(n: nat): (b: Bytes)
    ensures |b| == n
  {
    seq(n, _ => 0)
  }

  function PadTo4(buf: Bytes): Bytes {
    buf + Zeros(Align(|buf|) - |buf|)
  }

  /** The length field holds the low sixteen bits of the length. */
  function Header(e: Endian, ty: nat, payloadLen: nat): (b: Bytes)
    requires ty < 0x1_0000
    ensures |b| == 4 && U16(e, b[0], b[1]) == (4 + payloadLen) % 0x1_0000 && U16(e, b[2], b[3]) == ty
  {
    Ne16(e, (4 + payloadLen) % 0x1_0000) + Ne16(e, ty)
  }

  /** Types and numbers fit their fields, at every level; lengths are not restricted. */
  predicate Typed(attr: Attr)
    decreases attr, 0
  {
    match attr
    case U32Attr(value) => value < 0x1_0000_0000
    case BytesAttr(_) => true
    case StrAttr(_) => true
    case Nested(children) => TypedAll(children)
  }

  predicate TypedField(f: Field)
    decreases f, 0
  {
    f.ty < 0x1_0000 && Typed(f.attr)
  }

  predicate TypedAll(attrs: seq<Field>)
    decreases attrs, 1
  {
    forall i :: 0 <= i < |attrs| ==> TypedField(attrs[i])
  }

  function Payload(e: Endian, attr: Attr): Bytes
    requires Typed(attr)
    decreases attr, 0
  {
    match attr
    case U32Attr(value) => Ne32(e, value)
    case BytesAttr(bytes) => bytes
    case StrAttr(text) => text + [0]
    case Nested(children) => Encoded(e, children)
  }

  /** One attribute on a four-aligned buffer. */
  function EncodedOne(e: Endian, f: Field): Bytes
    requires TypedField(f)
    decreases f, 1
  {
    PadTo4(Header(e, f.ty, |Payload(e, f.attr)|) + Payload(e, f.attr))
  }

  function Encoded(e: Endian, attrs: seq<Field>): Bytes
    requires TypedAll(attrs)
    decreases attrs, 2
  {
    if attrs == [] then []
    else
      var last := attrs[|attrs| - 1];
      assert TypedField(last);
      Encoded(e, attrs[..|attrs| - 1]) + EncodedOne(e, last)
  }

  lemma SumAligned(a: nat, b: nat)
    requires a % 4 == 0 && b % 4 == 0
    ensures (a + b) % 4 == 0
  {
  }

  lemma {:induction false} EncodedAligned(e: Endian, attrs: seq<Field>)
    requires TypedAll(attrs)
    ensures |Encoded(e, attrs)| % 4 == 0
    decreases |attrs|
  {
    if attrs != [] {
      EncodedAligned(e, attrs[..|attrs| - 1]);
      var last := attrs[|attrs| - 1];
      assert TypedField(last);
      SumAligned(|Encoded(e, attrs[..|attrs| - 1])|, |EncodedOne(e, last)|);
    }
  }

  lemma AlignShift(a: nat, b: nat)
    requires a % 4 == 0
    ensures Align(a + b) == a + Align(b)
  {
  }

  lemma PadShift(buf: Bytes, x: Bytes)
    requires |buf| % 4 == 0
    ensures PadTo4(buf + x) == buf + PadTo4(x)
  {
    AlignShift(|buf|, |x|);
  }

  /** Pads with zeros until the buffer is aligned. */
  method Pad(buf: Bytes) returns (out: Bytes)
    ensures out == PadTo4(buf)
  {
    out := buf;
    while |out| % NLMSG_ALIGNTO != 0
      invariant |buf| <= |out| <= Align(|buf|)
      invariant out == buf + Zeros(|out| - |buf|)
      decreases Align(|buf|) - |out|
    {
      out := out + [0];
    }
  }

  /** Appends one attribute to the buffer, padding until the whole buffer is aligned. */
  method PutAttr(e: Endian, buf: Bytes, f: Field) returns (out: Bytes)
    requires TypedField(f) && |buf| % 4 == 0
    ensures out == buf + EncodedOne(e, f)
    decreases f, 1
  {
    var payload := AttrPayload(e, f.attr);
    out := Pad(buf + (Header(e, f.ty, |payload|) + payload));
    PadShift(buf, Header(e, f.ty, |payload|) + payload);
  }

  method AttrPayload(e: Endian, attr: Attr) returns (out: Bytes)
    requires Typed(attr)
    ensures out == Payload(e, attr)
    decreases attr, 0
  {
    match attr {
      case U32Attr(value) => out := Ne32(e, value);
      case BytesAttr(bytes) => out := bytes;
      case StrAttr(text) => out := text + [0];
      case Nested(children) =>
        out := [];
        for i := 0 to |children|
          invariant out == Encoded(e, children[..i])
        {
          EncodedAligned(e, children[..i]);
          assert TypedField(children[i]);
          assert children[..i + 1][..i] == children[..i];
          out := PutAttr(e, out, children[i]);
        }
        assert children[..|children|] == children;
    }
  }

  // ---- Walking ---------------------------------------------------------------------

  datatype Visit = Visit(ty: nat, payload: Bytes)

  /** The visits made before the walk ended, and whether it ended without a malformed attribute. */
  datatype Walked = Walked(visits: seq<Visit>, ok: bool)

  function Min(a: nat, b: nat): nat { if a <= b then a else b }

  /** The two top bits of a type are flags and are stripped. */
  function StripFlags(ty: nat): nat { ty % 0x4000 }

  function Walk(e: Endian, buf: Bytes): Walked
    decreases |buf|
  {
    if |buf| < 4 then Walked([], true)
    else
      var len := U16(e, buf[0], buf[1]);
      if len < 4 || len > |buf| then Walked([], false)
      else
        var rest := Walk(e, buf[Min(Align(len), |buf|)..]);
        Walked([Visit(StripFlags(U16(e, buf[2], buf[3])), buf[4..len])] + rest.visits, rest.ok)
  }

  method ForEachAttr(e: Endian, buf: Bytes) returns (visits: seq<Visit>, ok: bool)
    ensures Walked(visits, ok) == Walk(e, buf)
  {
    visits := [];
    var rest := buf;
    while |rest| >= 4
      invariant Walk(e, buf) == Walked(visits + Walk(e, rest).visits, Walk(e, rest).ok)
      decreases |rest|
    {
      var len := U16(e, rest[0], rest[1]);
      var ty := StripFlags(U16(e, rest[2], rest[3]));
      if len < 4 || len > |rest| {
        assert visits + [] == visits;
        return visits, false;
      }
      ghost var after := Walk(e, rest[Min(Align(len), |rest|)..]).visits;
      assert visits + ([Visit(ty, rest[4..len])] + after) == visits + [Visit(ty, rest[4..len])] + after;
      visits := visits + [Visit(ty, rest[4..len])];
      rest := rest[Min(Align(len), |rest|)..];
    }
    assert visits + [] == visits;
    ok := true;
  }

  // ---- Reading back what was written ---------------------------------------------------

  /** The length fits its field and the type carries no flag bits. */
  predicate Fits(e: Endian, f: Field)
    requires TypedField(f)
  {
    f.ty < 0x4000 && 4 + |Payload(e, f.attr)| < 0x1_0000
  }

  function VisitOf(e: Endian, f: Field): Visit
    requires TypedField(f)
  {
    Visit(f.ty, Payload(e, f.attr))
  }

  function VisitsOf(e: Endian, attrs: seq<Field>): seq<Visit>
    requires TypedAll(attrs)
  {
    seq(|attrs|, i requires 0 <= i < |attrs| => VisitOf(e, attrs[i]))
  }

  lemma EncodedSnoc(e: Endian, attrs: seq<Field>, last: Field)
    requires TypedAll(attrs) && TypedField(last)
    ensures TypedAll(attrs + [last]) && Encoded(e, attrs + [last]) == Encoded(e, attrs) + EncodedOne(e, last)
  {
    assert (attrs + [last])[..|attrs + [last]| - 1] == attrs;
  }

  lemma {:induction false} EncodedFromFront(e: Endian, first: Field, attrs: seq<Field>)
    requires TypedField(first) && TypedAll(attrs)
    ensures TypedAll([first] + attrs) && Encoded(e, [first] + attrs) == EncodedOne(e, first) + Encoded(e, attrs)
    decreases |attrs|
  {
    if attrs == [] {
      assert [first] + attrs == [] + [first];
      EncodedSnoc(e, [], first);
    } else {
      var front, last := attrs[..|attrs| - 1], attrs[|attrs| - 1];
      assert TypedField(last);
      assert attrs == front + [last] && [first] + attrs == ([first] + front) + [last];
      EncodedFromFront(e, first, front);
      EncodedSnoc(e, front, last);
      EncodedSnoc(e, [first] + front, last);
      Associate(EncodedOne(e, first), Encoded(e, front), EncodedOne(e, last));
    }
  }

  /** The bytes of one attribute, as the walker sees them at the front of a buffer. */
  lemma FrontOfEncoding(e: Endian, f: Field, rest: Bytes)
    requires TypedField(f)
    ensures var buf, p := EncodedOne(e, f) + rest, Payload(e, f.attr);
            && |EncodedOne(e, f)| == Align(4 + |p|)
            && |buf| >= 4
            && U16(e, buf[0], buf[1]) == (4 + |p|) % 0x1_0000 && U16(e, buf[2], buf[3]) == f.ty
            && buf[4..4 + |p|] == p
            && buf[Align(4 + |p|)..] == rest
  {
    var p := Payload(e, f.attr);
    var h := Header(e, f.ty, |p|);
    var one := EncodedOne(e, f);
    assert one == h + p + Zeros(Align(4 + |p|) - (4 + |p|));
    var buf := one + rest;
    assert buf[0] == h[0] && buf[1] == h[1] && buf[2] == h[2] && buf[3] == h[3];
  }

  lemma WalkFront(e: Endian, buf: Bytes, ty: nat, p: Bytes, rest: Bytes)
    requires Align(4 + |p|) <= |buf|
    requires U16(e, buf[0], buf[1]) == 4 + |p| && U16(e, buf[2], buf[3]) == ty
    requires buf[4..4 + |p|] == p && buf[Align(4 + |p|)..] == rest
    ensures Walk(e, buf) == Walked([Visit(StripFlags(ty), p)] + Walk(e, rest).visits, Walk(e, rest).ok)
  {
    assert Min(Align(4 + |p|), |buf|) == Align(4 + |p|);
  }

  predicate LengthFits(e: Endian, f: Field)
    requires TypedField(f)
  {
    4 + |Payload(e, f.attr)| < 0x1_0000
  }

  /** How the walker shows an attribute: without the flag bits of its type. */
  function Seen(e: Endian, f: Field): Visit
    requires TypedField(f)
  {
    Visit(StripFlags(f.ty), Payload(e, f.attr))
  }

  /** An attribute of fitting length is visited, and the walk goes on behind it. */
  lemma WalkOneOfFittingLength(e: Endian, f: Field, rest: Bytes)
    requires TypedField(f) && LengthFits(e, f)
    ensures Walk(e, EncodedOne(e, f) + rest) == Walked([Seen(e, f)] + Walk(e, rest).visits, Walk(e, rest).ok)
  {
    FrontOfEncoding(e, f, rest);
    var p := Payload(e, f.attr);
    assert (4 + |p|) % 0x1_0000 == 4 + |p|;
    WalkFront(e, EncodedOne(e, f) + rest, f.ty, p, rest);
  }

  lemma SeenAsWritten(e: Endian, f: Field)
    requires TypedField(f) && Fits(e, f)
    ensures LengthFits(e, f) && Seen(e, f) == VisitOf(e, f)
  {
  }

  /** One that does not fit is refused or visited as something else. */
  lemma WalkOneThatDoesNotFit(e: Endian, f: Field, rest: Bytes)
    requires TypedField(f) && !Fits(e, f)
    ensures var w := Walk(e, EncodedOne(e, f) + rest); !w.ok || (w.visits != [] && w.visits[0] != VisitOf(e, f))
  {
    FrontOfEncoding(e, f, rest);
    var buf, p := EncodedOne(e, f) + rest, Payload(e, f.attr);
    var len := (4 + |p|) % 0x1_0000;
    if 4 <= len <= |buf| {
      assert |buf[4..len]| == len - 4;
    }
  }

  predicate AllFit(e: Endian, attrs: seq<Field>) {
    forall i :: 0 <= i < |attrs| ==> TypedField(attrs[i]) && Fits(e, attrs[i])
  }

  lemma AllCons(e: Endian, first: Field, tail: seq<Field>)
    ensures AllFit(e, [first] + tail) <==> TypedField(first) && Fits(e, first) && AllFit(e, tail)
  {
    if AllFit(e, [first] + tail) {
      assert ([first] + tail)[0] == first;
      assert forall i :: 0 <= i < |tail| ==> tail[i] == ([first] + tail)[i + 1];
    }
  }

  ghost predicate ReadsBack(e: Endian, attrs: seq<Field>)
    requires TypedAll(attrs)
  {
    Walk(e, Encoded(e, attrs)) == Walked(VisitsOf(e, attrs), true)
  }

  lemma VisitsCons(e: Endian, first: Field, tail: seq<Field>)
    requires TypedField(first) && TypedAll(tail)
    ensures TypedAll([first] + tail) && VisitsOf(e, [first] + tail) == [VisitOf(e, first)] + VisitsOf(e, tail)
  {
    var attrs := [first] + tail;
    assert forall i :: 0 < i < |attrs| ==> attrs[i] == tail[i - 1];
  }

  lemma ReadsBackCons(e: Endian, first: Field, tail: seq<Field>)
    requires TypedField(first) && TypedAll(tail)
    ensures TypedAll([first] + tail)
    ensures ReadsBack(e, [first] + tail) <==> Fits(e, first) && ReadsBack(e, tail)
  {
    EncodedFromFront(e, first, tail);
    VisitsCons(e, first, tail);
    if Fits(e, first) {
      SeenAsWritten(e, first);
      WalkOneOfFittingLength(e, first, Encoded(e, tail));
      ConsInjective(VisitOf(e, first), Walk(e, Encoded(e, tail)).visits, VisitsOf(e, tail));
    } else {
      WalkOneThatDoesNotFit(e, first, Encoded(e, tail));
    }
  }

  /**
   * Walking the bytes that were appended visits exactly the written attributes, in order and
   * unchanged, if and only if every type and length fits its field.
   */
  lemma {:induction false} WalkReadsBackExactly(e: Endian, attrs: seq<Field>)
    requires TypedAll(attrs)
    ensures ReadsBack(e, attrs) <==> AllFit(e, attrs)
    decreases |attrs|
  {
    if attrs != [] {
      var first, tail := attrs[0], attrs[1..];
      assert TypedField(first) && attrs == [first] + tail;
      WalkReadsBackExactly(e, tail);
      ReadsBackCons(e, first, tail);
      AllCons(e, first, tail);
    }
  }

  function AllSeen(e: Endian, attrs: seq<Field>): seq<Visit>
    requires TypedAll(attrs)
  {
    seq(|attrs|, i requires 0 <= i < |attrs| => Seen(e, attrs[i]))
  }

  predicate LengthsFit(e: Endian, attrs: seq<Field>) {
    forall i :: 0 <= i < |attrs| ==> TypedField(attrs[i]) && LengthFits(e, attrs[i])
  }

  lemma WalkCons(e: Endian, first: Field, tail: seq<Field>)
    requires TypedField(first) && LengthFits(e, first) && TypedAll(tail)
    ensures TypedAll([first] + tail)
    ensures var rest := Walk(e, Encoded(e, tail));
            Walk(e, Encoded(e, [first] + tail)) == Walked([Seen(e, first)] + rest.visits, rest.ok)
  {
    EncodedFromFront(e, first, tail);
    WalkOneOfFittingLength(e, first, Encoded(e, tail));
  }

  lemma SeenCons(e: Endian, first: Field, tail: seq<Field>)
    requires TypedField(first) && TypedAll(tail)
    ensures TypedAll([first] + tail) && AllSeen(e, [first] + tail) == [Seen(e, first)] + AllSeen(e, tail)
  {
    var attrs := [first] + tail;
    assert forall i :: 0 < i < |attrs| ==> attrs[i] == tail[i - 1];
  }

  /** Flag bits on types do not matter: every attribute is visited, without them. */
  lemma {:induction false} WalkIgnoresFlags(e: Endian, attrs: seq<Field>)
    requires TypedAll(attrs) && LengthsFit(e, attrs)
    ensures Walk(e, Encoded(e, attrs)) == Walked(AllSeen(e, attrs), true)
    decreases |attrs|
  {
    if attrs != [] {
      var first, tail := attrs[0], attrs[1..];
      assert TypedField(first) && LengthFits(e, first) && attrs == [first] + tail;
      WalkIgnoresFlags(e, tail);
      WalkCons(e, first, tail);
      SeenCons(e, first, tail);
    }
  }

  /** A payload of 65532 bytes wraps the length field and does not read back. */
  lemma LongPayloadIsNotReadBack(e: Endian)
    ensures var attrs := [Field(1, BytesAttr(Zeros(65532)))];
            TypedAll(attrs) && !ReadsBack(e, attrs)
  {
    var attrs := [Field(1, BytesAttr(Zeros(65532)))];
    assert TypedField(attrs[0]) && !Fits(e, attrs[0]);
    WalkReadsBackExactly(e, attrs);
  }

  /** Every level of nesting fits. */
  predicate FitsDeep(e: Endian, attr: Attr)
    requires Typed(attr)
    decreases attr, 0
  {
    attr.Nested? ==>
      forall i :: 0 <= i < |attr.children| ==>
        TypedField(attr.children[i]) && Fits(e, attr.children[i]) && FitsDeepField(e, attr.children[i])
  }

  predicate FitsDeepField(e: Endian, f: Field)
    requires TypedField(f)
    decreases f, 1
  {
    FitsDeep(e, f.attr)
  }

  /** Walking the payload of a nested attribute, and of those inside it, finds exactly its children. */
  ghost predicate ReadsBackDeep(e: Endian, attr: Attr)
    requires Typed(attr)
    decreases attr, 0
  {
    attr.Nested? ==>
      && ReadsBack(e, attr.children)
      && forall i :: 0 <= i < |attr.children| ==>
           TypedField(attr.children[i]) && ReadsBackDeepField(e, attr.children[i])
  }

  ghost predicate ReadsBackDeepField(e: Endian, f: Field)
    requires TypedField(f)
    decreases f, 1
  {
    ReadsBackDeep(e, f.attr)
  }

  lemma {:induction false} NestedReadsBackExactly(e: Endian, attr: Attr)
    requires Typed(attr)
    ensures ReadsBackDeep(e, attr) <==> FitsDeep(e, attr)
    decreases attr, 0
  {
    if attr.Nested? {
      WalkReadsBackExactly(e, attr.children);
      forall i | 0 <= i < |attr.children|
        ensures TypedField(attr.children[i])
                && (ReadsBackDeepField(e, attr.children[i]) <==> FitsDeepField(e, attr.children[i]))
      {
        NestedFieldReadsBackExactly(e, attr.children[i]);
      }
    }
  }

  lemma {:induction false} NestedFieldReadsBackExactly(e: Endian, f: Field)
    requires TypedField(f)
    ensures ReadsBackDeepField(e, f) <==> FitsDeepField(e, f)
    decreases f, 1
  {
    NestedReadsBackExactly(e, f.attr);
  }
}
