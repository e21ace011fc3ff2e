/**
 * A table of links, described by the kernel as messages in datagrams, read back through
 * every layer: message headers, attributes, nested attributes and the draining loop.
 */
module LinkTable {
  import opened Common
  import opened Netlink
  import opened LinkDump

  /** A link that attributes can describe: texts end at a zero, and a master or index of 0 means none. */
  predicate WellFormed(link: Link) {
    && 0 < link.ifindex < 0x8000_0000 && link.arphrd < 0x1_0000 && link.flags < 0x1_0000_0000
    && link.name != [] && 0 !in link.name
    && (link.master.Some? ==> 0 < link.master.value < 0x1_0000_0000)
    && (link.kind.Some? ==> 0 !in link.kind.value)
    && (link.mac.Some? ==> |link.mac.value| == 6)
  }

  // ---- What attributes say about a link ---------------------------------------------------------

  predicate IsMac(e: Endian, f: Field)
    requires TypedField(f)
  {
    StripFlags(f.ty) == IFLA_ADDRESS && |Payload(e, f.attr)| == 6
  }

  predicate HasType(fields: seq<Field>, ty: nat) {
    exists i :: 0 <= i < |fields| && StripFlags(fields[i].ty) == ty
  }

  /** The attribute is link info with a kind in it. */
  predicate NamesKind(f: Field) {
    StripFlags(f.ty) == IFLA_LINKINFO && f.attr.Nested? && HasType(f.attr.children, IFLA_INFO_KIND)
  }

  /** Inside link info: the link's kind, or something about it that is not read. */
  predicate TellsKind(e: Endian, f: Field, kind: Option<Bytes>) {
    && TypedField(f) && LengthFits(e, f)
    && (StripFlags(f.ty) == IFLA_INFO_KIND ==> kind.Some? && f.attr == StrAttr(kind.value))
  }

  predicate AllTellKind(e: Endian, fields: seq<Field>, kind: Option<Bytes>) {
    forall i :: 0 <= i < |fields| ==> TellsKind(e, fields[i], kind)
  }

  /** An attribute that is true of the link, or is not read at all. */
  predicate Tells(e: Endian, f: Field, link: Link) {
    && TypedField(f) && LengthFits(e, f)
    && (StripFlags(f.ty) == IFLA_IFNAME ==> f.attr == StrAttr(link.name))
    && (StripFlags(f.ty) == IFLA_MASTER ==> f.attr == U32Attr(if link.master.Some? then link.master.value else 0))
    && (StripFlags(f.ty) == IFLA_LINKINFO ==> f.attr.Nested? && AllTellKind(e, f.attr.children, link.kind))
    && (IsMac(e, f) ==> link.mac == Some(Payload(e, f.attr)))
  }

  predicate AllTell(e: Endian, fields: seq<Field>, link: Link) {
    forall i :: 0 <= i < |fields| ==> Tells(e, fields[i], link)
  }

  predicate HasKind(fields: seq<Field>) {
    exists i :: 0 <= i < |fields| && NamesKind(fields[i])
  }

  predicate HasMac(e: Endian, fields: seq<Field>) {
    exists i :: 0 <= i < |fields| && TypedField(fields[i]) && IsMac(e, fields[i])
  }

  /** Attributes in any order, among any others, that say everything about the link and nothing else. */
  predicate Describes(e: Endian, fields: seq<Field>, link: Link) {
    && AllTell(e, fields, link)
    && HasType(fields, IFLA_IFNAME)
    && (link.master.Some? ==> HasType(fields, IFLA_MASTER))
    && (link.kind.Some? ==> HasKind(fields))
    && (link.mac.Some? ==> HasMac(e, fields))
  }

  lemma {:induction false} CStringOfName(text: Bytes)
    requires 0 !in text
    ensures CString(text + [0]) == text
  {
    if text != [] {
      assert (text + [0])[1..] == text[1..] + [0];
      CStringOfName(text[1..]);
    }
  }

  lemma {:induction false} LastKindTold(e: Endian, before: Option<Bytes>, fields: seq<Field>, kind: Option<Bytes>)
    requires AllTellKind(e, fields, kind) && (kind.Some? ==> 0 !in kind.value)
    ensures TypedAll(fields)
    ensures LastKind(before, AllSeen(e, fields)) == if HasType(fields, IFLA_INFO_KIND) then kind else before
    decreases |fields|
  {
    if fields != [] {
      var first, tail := fields[0], fields[1..];
      assert TellsKind(e, first, kind);
      if StripFlags(first.ty) == IFLA_INFO_KIND {
        CStringOfName(kind.value);
      }
      LastKindTold(e, if StripFlags(first.ty) == IFLA_INFO_KIND then kind else before, tail, kind);
      assert AllSeen(e, fields)[1..] == AllSeen(e, tail);
      HasTypeCons(fields, IFLA_INFO_KIND);
    }
  }

  lemma HasTypeCons(fields: seq<Field>, ty: nat)
    requires fields != []
    ensures HasType(fields, ty) <==> StripFlags(fields[0].ty) == ty || HasType(fields[1..], ty)
  {
    assert forall i :: 0 < i < |fields| ==> fields[i] == fields[1..][i - 1];
    assert forall i :: 0 <= i < |fields| - 1 ==> fields[1..][i] == fields[i + 1];
  }

  lemma HasKindCons(fields: seq<Field>)
    requires fields != [] && HasKind(fields)
    ensures NamesKind(fields[0]) || HasKind(fields[1..])
  {
    assert forall i :: 0 < i < |fields| ==> fields[i] == fields[1..][i - 1];
  }

  lemma HasMacCons(e: Endian, fields: seq<Field>)
    requires fields != [] && HasMac(e, fields) && TypedField(fields[0])
    ensures IsMac(e, fields[0]) || HasMac(e, fields[1..])
  {
    assert forall i :: 0 < i < |fields| ==> fields[i] == fields[1..][i - 1];
  }

  /** What is known after one more attribute that is true of the link. */
  function Learn(e: Endian, attrs: Attrs, f: Field, link: Link): Attrs
    requires TypedField(f)
  {
    Attrs(if StripFlags(f.ty) == IFLA_IFNAME then Some(link.name) else attrs.name,
          if StripFlags(f.ty) == IFLA_MASTER then link.master else attrs.master,
          if NamesKind(f) then link.kind else attrs.kind,
          if IsMac(e, f) then link.mac else attrs.mac)
  }

  lemma ApplyInfo(e: Endian, attrs: Attrs, f: Field, link: Link)
    requires Tells(e, f, link) && WellFormed(link) && StripFlags(f.ty) == IFLA_LINKINFO
    ensures Apply(e, attrs, Seen(e, f)) == Some(Learn(e, attrs, f, link))
  {
    var children := f.attr.children;
    LastKindTold(e, attrs.kind, children, link.kind);
    forall i | 0 <= i < |children| ensures TypedField(children[i]) && LengthFits(e, children[i]) {
      assert TellsKind(e, children[i], link.kind);
    }
    WalkIgnoresFlags(e, f.attr.children);
  }

  lemma ApplyTold(e: Endian, attrs: Attrs, f: Field, link: Link)
    requires Tells(e, f, link) && WellFormed(link)
    ensures Apply(e, attrs, Seen(e, f)) == Some(Learn(e, attrs, f, link))
  {
    if StripFlags(f.ty) == IFLA_IFNAME {
      CStringOfName(link.name);
    } else if StripFlags(f.ty) == IFLA_LINKINFO {
      ApplyInfo(e, attrs, f, link);
    }
  }

  /** What is not known of the link yet is in the fields still to come. */
  ghost predicate WillKnowAll(e: Endian, attrs: Attrs, fields: seq<Field>, link: Link) {
    && (attrs.name == Some(link.name) || HasType(fields, IFLA_IFNAME))
    && (attrs.master == link.master || HasType(fields, IFLA_MASTER))
    && (attrs.kind == link.kind || HasKind(fields))
    && (attrs.mac == link.mac || HasMac(e, fields))
  }

  lemma LearnedMore(e: Endian, attrs: Attrs, fields: seq<Field>, link: Link)
    requires fields != [] && Tells(e, fields[0], link) && WillKnowAll(e, attrs, fields, link)
    ensures WillKnowAll(e, Learn(e, attrs, fields[0], link), fields[1..], link)
  {
    HasTypeCons(fields, IFLA_IFNAME);
    HasTypeCons(fields, IFLA_MASTER);
    if HasKind(fields) {
      HasKindCons(fields);
    }
    if HasMac(e, fields) {
      HasMacCons(e, fields);
    }
  }

  lemma {:induction false} ApplyDescription(e: Endian, attrs: Attrs, fields: seq<Field>, link: Link)
    requires AllTell(e, fields, link) && WellFormed(link) && WillKnowAll(e, attrs, fields, link)
    ensures TypedAll(fields)
    ensures ApplyAll(e, attrs, AllSeen(e, fields))
            == Some(Attrs(Some(link.name), link.master, link.kind, link.mac))
    decreases |fields|
  {
    if fields != [] {
      assert Tells(e, fields[0], link);
      ApplyTold(e, attrs, fields[0], link);
      LearnedMore(e, attrs, fields, link);
      ApplyDescription(e, Learn(e, attrs, fields[0], link), fields[1..], link);
      assert AllSeen(e, fields)[1..] == AllSeen(e, fields[1..]);
    }
  }

  // ---- One link in one message ------------------------------------------------------------------

  /** A link and all the ways its message may be written: header flags, unread parts and attributes. */
  datatype Described = Described(link: Link, flags: nat, family: Bytes, change: Bytes, fields: seq<Field>)

  /** The fixed part of a link message; its family and change fields are not read. */
  function FixedPart(family: Bytes, arphrd: Bytes, ifindex: Bytes, flags: Bytes, change: Bytes): Bytes {
    family + arphrd + ifindex + flags + change
  }

  predicate WellDescribed(e: Endian, d: Described) {
    && WellFormed(d.link) && TypedAll(d.fields) && Describes(e, d.fields, d.link)
    && d.flags < 0x1_0000 && d.flags / NLM_F_DUMP_INTR % 2 == 0
    && |d.family| == 2 && |d.change| == 4 && 32 + |Encoded(e, d.fields)| < 0x1_0000_0000
  }

  function EncodeLink(e: Endian, d: Described): Bytes
    requires WellDescribed(e, d)
  {
    FixedPart(d.family, Ne16(e, d.link.arphrd), Ne32(e, d.link.ifindex), Ne32(e, d.link.flags), d.change)
    + Encoded(e, d.fields)
  }

  lemma FixedPartReads(a: Bytes, t: Bytes, i: Bytes, f: Bytes, c: Bytes, rest: Bytes)
    requires |a| == 2 && |t| == 2 && |i| == 4 && |f| == 4 && |c| == 4
    ensures var msg := FixedPart(a, t, i, f, c) + rest;
            && |msg| == 16 + |rest| && msg[16..] == rest
            && msg[2] == t[0] && msg[3] == t[1]
            && msg[4] == i[0] && msg[5] == i[1] && msg[6] == i[2] && msg[7] == i[3]
            && msg[8] == f[0] && msg[9] == f[1] && msg[10] == f[2] && msg[11] == f[3]
  {
  }

  /** However a link is described, it comes back through both levels of attributes. */
  lemma LinkReadsBack(e: Endian, d: Described)
    requires WellDescribed(e, d)
    ensures ParseLink(e, EncodeLink(e, d)) == Some(d.link)
  {
    var link := d.link;
    FixedPartReads(d.family, Ne16(e, link.arphrd), Ne32(e, link.ifindex), Ne32(e, link.flags), d.change,
                   Encoded(e, d.fields));
    assert LengthsFit(e, d.fields) by {
      forall i | 0 <= i < |d.fields| ensures TypedField(d.fields[i]) && LengthFits(e, d.fields[i]) {
        assert Tells(e, d.fields[i], link);
      }
    }
    WalkIgnoresFlags(e, d.fields);
    ApplyDescription(e, NO_ATTRS, d.fields, link);
  }

  function LinkMessage(e: Endian, d: Described, sequence: nat): Message
    requires WellDescribed(e, d)
  {
    Message(RTM_NEWLINK, d.flags, sequence, EncodeLink(e, d))
  }

  lemma JudgeLink(e: Endian, d: Described, sequence: nat)
    requires WellDescribed(e, d)
    ensures Judge(e, Msg(LinkMessage(e, d, sequence)), sequence) == Take([d.link])
  {
    LinkReadsBack(e, d);
  }

  // ---- The whole table --------------------------------------------------------------------------

  ghost predicate AllDescribed(e: Endian, ds: seq<Described>) {
    forall i :: 0 <= i < |ds| ==> WellDescribed(e, ds[i])
  }

  ghost function LinksOf(ds: seq<Described>): seq<Link> {
    seq(|ds|, i requires 0 <= i < |ds| => ds[i].link)
  }

  /** What the kernel has to say: a message for each link, then DONE. */
  ghost function TableMessages(e: Endian, ds: seq<Described>, done: Message, sequence: nat): seq<Message>
    requires AllDescribed(e, ds)
  {
    seq(|ds|, i requires 0 <= i < |ds| => LinkMessage(e, ds[i], sequence)) + [done]
  }

  /** Items that are one link each, then the end of the dump. */
  ghost predicate Spells(e: Endian, items: seq<Item>, links: seq<Link>, sequence: nat) {
    && |items| == |links| + 1
    && (forall i :: 0 <= i < |links| ==> Judge(e, items[i], sequence) == Take([links[i]]))
    && Judge(e, items[|links|], sequence) == Stop(Ok(true))
  }

  lemma {:induction false} SpelledLinksAreDumped(e: Endian, items: seq<Item>, links: seq<Link>, sequence: nat)
    requires Spells(e, items, links, sequence)
    ensures DumpMessages(e, items, sequence) == Ok(links)
  {
    if links != [] {
      assert Judge(e, items[0], sequence) == Take([links[0]]);
      assert forall i :: 0 <= i < |items| - 1 ==> items[1..][i] == items[i + 1];
      SpelledLinksAreDumped(e, items[1..], links[1..], sequence);
      assert [links[0]] + links[1..] == links;
    }
  }

  lemma TableIsDumped(e: Endian, ds: seq<Described>, done: Message, sequence: nat)
    requires AllDescribed(e, ds) && IsDone(Msg(done), sequence)
    ensures DumpMessages(e, AsItems(TableMessages(e, ds, done, sequence)), sequence) == Ok(LinksOf(ds))
  {
    var items := AsItems(TableMessages(e, ds, done, sequence));
    forall i | 0 <= i < |ds|
      ensures Judge(e, items[i], sequence) == Take([LinksOf(ds)[i]])
    {
      JudgeLink(e, ds[i], sequence);
    }
    SpelledLinksAreDumped(e, items, LinksOf(ds), sequence);
  }

  lemma LinkMessageSized(e: Endian, d: Described, sequence: nat)
    requires WellDescribed(e, d) && sequence < 0x1_0000_0000
    ensures MessageSized(LinkMessage(e, d, sequence))
  {
  }

  lemma TableSized(e: Endian, ds: seq<Described>, done: Message, sequence: nat)
    requires AllDescribed(e, ds) && MessageSized(done) && sequence < 0x1_0000_0000
    ensures AllSized(TableMessages(e, ds, done, sequence))
  {
    var messages := TableMessages(e, ds, done, sequence);
    forall i | 0 <= i < |messages|
      ensures MessageSized(messages[i])
    {
      if i < |ds| {
        LinkMessageSized(e, ds[i], sequence);
      }
    }
  }

  lemma {:induction false} InFlatten<T>(parts: seq<seq<T>>, i: nat, j: nat)
    requires i < |parts| && j < |parts[i]|
    ensures parts[i][j] in Flatten(parts)
  {
    if i == 0 {
      assert (parts[0] + Flatten(parts[1..]))[j] == parts[0][j];
    } else {
      InFlatten(parts[1..], i - 1, j);
    }
  }

  lemma PartsAreSendable(parts: seq<seq<Message>>, messages: seq<Message>, sequence: nat)
    requires Flatten(parts) == messages && AllSized(messages)
    requires forall i :: 0 <= i < |messages| ==> messages[i].sequence == sequence
    ensures Sendable(parts, sequence)
  {
    forall i, j | 0 <= i < |parts| && 0 <= j < |parts[i]|
      ensures MessageSized(parts[i][j]) && parts[i][j].sequence == sequence
    {
      InFlatten(parts, i, j);
      var k :| 0 <= k < |messages| && messages[k] == parts[i][j];
    }
  }

  /**
   * For every table of links, however each is described, and every way of cutting the messages
   * into datagrams, the dump returns exactly that table.
   */
  lemma TableReadsBack(
    e: Endian, ds: seq<Described>, done: Message, parts: seq<seq<Message>>, sequence: nat)
    requires AllDescribed(e, ds) && IsDone(Msg(done), sequence) && MessageSized(done)
    requires Flatten(parts) == TableMessages(e, ds, done, sequence)
    ensures Sendable(parts, sequence)
    ensures Dump(e, Datagrams(e, parts), sequence) == Ok(LinksOf(ds))
  {
    TableSized(e, ds, done, sequence);
    PartsAreSendable(parts, TableMessages(e, ds, done, sequence), sequence);
    SplitDoesNotMatter(e, parts, sequence);
    TableIsDumped(e, ds, done, sequence);
  }

  // ---- Every link has a description ---------------------------------------------------------------

  function NameField(name: Bytes): Field { Field(IFLA_IFNAME, StrAttr(name)) }

  function MasterFields(master: Option<nat>): seq<Field> {
    if master.None? then [] else [Field(IFLA_MASTER, U32Attr(master.value))]
  }

  function KindChild(kind: Bytes): Field { Field(IFLA_INFO_KIND, StrAttr(kind)) }

  function KindFields(kind: Option<Bytes>): seq<Field> {
    if kind.None? then [] else [Field(IFLA_LINKINFO, Nested([KindChild(kind.value)]))]
  }

  function MacFields(mac: Option<Bytes>): seq<Field> {
    if mac.None? then [] else [Field(IFLA_ADDRESS, BytesAttr(mac.value))]
  }

  function LinkFields(link: Link): seq<Field> {
    [NameField(link.name)] + MasterFields(link.master) + KindFields(link.kind) + MacFields(link.mac)
  }

  /** The shortest description: a field for each thing there is to say. */
  function Plainly(link: Link): Described {
    Described(link, 0, Zeros(2), Zeros(4), LinkFields(link))
  }

  predicate ShortTexts(link: Link) {
    |link.name| < 0x8000 && (link.kind.Some? ==> |link.kind.value| < 0x8000)
  }

  lemma EncodedLen(e: Endian, f: Field)
    requires TypedField(f)
    ensures |Encoded(e, [f])| <= 8 + |Payload(e, f.attr)|
  {
    assert [f][..0] == [];
    assert Encoded(e, [f]) == [] + EncodedOne(e, f);
  }

  lemma KindFieldTells(e: Endian, link: Link)
    requires WellFormed(link) && ShortTexts(link) && link.kind.Some?
    ensures var f := KindFields(link.kind)[0]; Tells(e, f, link) && NamesKind(f)
  {
    var child := KindChild(link.kind.value);
    var f := KindFields(link.kind)[0];
    assert f.attr.children == [child];
    assert f.attr.children[0].ty == IFLA_INFO_KIND;
    EncodedLen(e, child);
    assert TellsKind(e, child, link.kind);
  }

  lemma OneTells(e: Endian, f: Field, link: Link)
    requires Tells(e, f, link)
    ensures AllTell(e, [f], link)
  {
  }

  lemma SimpleFieldsTell(e: Endian, link: Link)
    requires WellFormed(link) && ShortTexts(link)
    ensures AllTell(e, [NameField(link.name)], link)
    ensures AllTell(e, MasterFields(link.master), link) && AllTell(e, MacFields(link.mac), link)
  {
    OneTells(e, NameField(link.name), link);
    if link.master.Some? {
      OneTells(e, MasterFields(link.master)[0], link);
    }
    if link.mac.Some? {
      OneTells(e, MacFields(link.mac)[0], link);
    }
  }

  lemma LinkFieldsTell(e: Endian, link: Link)
    requires WellFormed(link) && ShortTexts(link)
    ensures AllTell(e, LinkFields(link), link)
  {
    var name, master, kind, mac :=
      [NameField(link.name)], MasterFields(link.master), KindFields(link.kind), MacFields(link.mac);
    SimpleFieldsTell(e, link);
    if link.kind.Some? {
      KindFieldTells(e, link);
    }
    TellConcat(e, name, master, link);
    TellConcat(e, name + master, kind, link);
    TellConcat(e, name + master + kind, mac, link);
  }

  lemma TellConcat(e: Endian, a: seq<Field>, b: seq<Field>, link: Link)
    requires AllTell(e, a, link) && AllTell(e, b, link)
    ensures AllTell(e, a + b, link)
  {
  }

  lemma OneBounded(e: Endian, f: Field)
    requires TypedField(f) && LengthFits(e, f)
    ensures |EncodedOne(e, f)| <= 0x1_0004
  {
  }

  lemma BoundedSnoc(e: Endian, front: seq<Field>, last: Field)
    requires TypedAll(front) && TypedField(last) && LengthFits(e, last)
    ensures TypedAll(front + [last])
    ensures |Encoded(e, front + [last])| <= |Encoded(e, front)| + 0x1_0004
  {
    OneBounded(e, last);
    EncodedSnoc(e, front, last);
  }

  lemma {:induction false} EncodedBounded(e: Endian, attrs: seq<Field>)
    requires TypedAll(attrs) && LengthsFit(e, attrs)
    ensures |Encoded(e, attrs)| <= 0x1_0004 * |attrs|
    decreases |attrs|
  {
    if attrs != [] {
      var front, last := attrs[..|attrs| - 1], attrs[|attrs| - 1];
      assert TypedField(last) && LengthFits(e, last) && attrs == front + [last];
      EncodedBounded(e, front);
      BoundedSnoc(e, front, last);
    }
  }

  lemma PlainlyDescribes(e: Endian, link: Link)
    requires WellFormed(link) && ShortTexts(link)
    ensures Describes(e, LinkFields(link), link)
  {
    var fields := LinkFields(link);
    var m, k := |MasterFields(link.master)|, |KindFields(link.kind)|;
    LinkFieldsTell(e, link);
    assert fields[0] == NameField(link.name);
    if link.master.Some? {
      assert fields[1] == MasterFields(link.master)[0];
    }
    if link.kind.Some? {
      KindFieldTells(e, link);
      assert fields[1 + m] == KindFields(link.kind)[0];
    }
    if link.mac.Some? {
      assert fields[1 + m + k] == MacFields(link.mac)[0];
      assert Tells(e, fields[1 + m + k], link);
    }
  }

  /** So the theorem above speaks of every table of links. */
  lemma PlainlyIsWell(e: Endian, link: Link)
    requires WellFormed(link) && ShortTexts(link)
    ensures WellDescribed(e, Plainly(link))
  {
    var fields := LinkFields(link);
    PlainlyDescribes(e, link);
    forall i | 0 <= i < |fields|
      ensures TypedField(fields[i]) && LengthFits(e, fields[i])
    {
      assert Tells(e, fields[i], link);
    }
    EncodedBounded(e, fields);
  }

  // ---- Links behind a message of another request ---------------------------------------------------

  lemma TwoParts(a: Message, b: Message)
    ensures Flatten([[a], [b]]) == [a] + [b]
  {
    var parts := [[a], [b]];
    assert parts[1..] == [[b]] && parts[1..][1..] == [];
    assert Flatten(parts[1..]) == [b] + Flatten(parts[1..][1..]);
  }

  lemma OneLinkIsRead(e: Endian, d: Described, done: Message, sequence: nat)
    requires WellDescribed(e, d) && IsDone(Msg(done), sequence) && MessageSized(done)
    ensures AllSized([LinkMessage(e, d, sequence)])
    ensures Dump(e, Datagrams(e, [[LinkMessage(e, d, sequence)], [done]]), sequence) == Ok([d.link])
  {
    var own := LinkMessage(e, d, sequence);
    LinkMessageSized(e, d, sequence);
    TwoParts(own, done);
    assert TableMessages(e, [d], done, sequence) == [own] + [done];
    TableReadsBack(e, [d], done, [[own], [done]], sequence);
    assert LinksOf([d]) == [d.link];
  }

  lemma FoldOfForeign(e: Endian, foreign: Message, rest: seq<Message>, sequence: nat)
    requires AllSized([foreign] + rest) && foreign.sequence != sequence
    ensures FoldItems(e, Items(e, EncodeMessages(e, [foreign] + rest)), sequence) == Fold(Ok(false), [])
  {
    ItemsOfEncoding(e, [foreign] + rest);
    AsItemsCons(foreign, rest);
    FoldStep(e, Msg(foreign), AsItems(rest), sequence);
  }

  lemma FoldOfDone(e: Endian, done: Message, sequence: nat)
    requires MessageSized(done) && IsDone(Msg(done), sequence)
    ensures FoldItems(e, Items(e, EncodeMessages(e, [done])), sequence) == Fold(Ok(true), [])
  {
    ItemsOfEncoding(e, [done]);
    assert AsItems([done]) == [Msg(done)] + [];
    FoldStep(e, Msg(done), [], sequence);
  }

  lemma DrainTwoEmpty(parts: seq<Option<Fold>>)
    requires |parts| == 2 && parts[0] == Some(Fold(Ok(false), [])) && parts[1] == Some(Fold(Ok(true), []))
    ensures Drain(parts) == Ok([])
  {
    DrainFrom(parts, 1);
    AddNothing(Drain(parts[1..]));
  }

  /** Whatever follows a foreign message in its datagram is lost, though the dump succeeds. */
  lemma MessagesBehindForeignAreLost(e: Endian, foreign: Message, rest: seq<Message>, done: Message, sequence: nat)
    requires AllSized([foreign] + rest) && foreign.sequence != sequence
    requires MessageSized(done) && IsDone(Msg(done), sequence)
    ensures Dump(e, [Some(EncodeMessages(e, [foreign] + rest)), Some(EncodeMessages(e, [done]))], sequence) == Ok([])
  {
    FoldOfForeign(e, foreign, rest, sequence);
    FoldOfDone(e, done, sequence);
    DumpOfTwo(e, EncodeMessages(e, [foreign] + rest), EncodeMessages(e, [done]), sequence);
  }

  lemma DumpOfTwo(e: Endian, a: Bytes, b: Bytes, sequence: nat)
    requires FoldItems(e, Items(e, a), sequence) == Fold(Ok(false), [])
    requires FoldItems(e, Items(e, b), sequence) == Fold(Ok(true), [])
    ensures Dump(e, [Some(a), Some(b)], sequence) == Ok([])
  {
    DrainTwoEmpty(Folded(e, [Some(a), Some(b)], sequence));
  }

  /** The link is read where it comes alone, but not behind the foreign message. */
  ghost predicate LostBehind(e: Endian, own: Message, foreign: Message, done: Message, sequence: nat, link: Link)
    requires MessageSized(own) && MessageSized(foreign) && MessageSized(done)
  {
    && Dump(e, Datagrams(e, [[own], [done]]), sequence) == Ok([link])
    && Dump(e, Datagrams(e, [[foreign, own], [done]]), sequence) == Ok([])
  }

  lemma TwoDatagrams(e: Endian, a: seq<Message>, b: seq<Message>)
    requires AllSized(a) && AllSized(b)
    ensures Datagrams(e, [a, b]) == [Some(EncodeMessages(e, a)), Some(EncodeMessages(e, b))]
  {
  }

  lemma LostBehindForeign(e: Endian, own: Message, foreign: Message, done: Message, sequence: nat)
    requires MessageSized(own) && IsDone(Msg(done), sequence) && MessageSized(done)
    requires foreign.sequence != sequence && MessageSized(foreign)
    ensures Dump(e, Datagrams(e, [[foreign, own], [done]]), sequence) == Ok([])
  {
    assert [foreign] + [own] == [foreign, own];
    MessagesBehindForeignAreLost(e, foreign, [own], done, sequence);
    TwoDatagrams(e, [foreign, own], [done]);
  }

  lemma LinkIsLostBehindForeign(
    e: Endian, d: Described, own: Message, foreign: Message, done: Message, sequence: nat)
    requires WellDescribed(e, d) && own == LinkMessage(e, d, sequence)
    requires IsDone(Msg(done), sequence) && MessageSized(done)
    requires foreign.sequence != sequence && MessageSized(foreign)
    ensures MessageSized(own) && LostBehind(e, own, foreign, done, sequence, d.link)
  {
    OneLinkIsRead(e, d, done, sequence);
    assert AllSized([own]) && MessageSized([own][0]);
    LostBehindForeign(e, own, foreign, done, sequence);
  }

  /** For one: the loopback link of request 2 is read, but not behind a DONE of request 1. */
  lemma LoopbackIsLost(e: Endian) returns (d: Described, foreign: Message, done: Message)
    ensures d == Plainly(Link(1, [108, 111], 772, 9, None, None, None))
    ensures foreign == Message(NLMSG_DONE, 0, 1, []) && done == Message(NLMSG_DONE, 0, 2, [])
    ensures WellDescribed(e, d) && MessageSized(LinkMessage(e, d, 2))
    ensures LostBehind(e, LinkMessage(e, d, 2), foreign, done, 2, d.link)
  {
    var link := Link(1, [108, 111], 772, 9, None, None, None);
    d, foreign, done := Plainly(link), Message(NLMSG_DONE, 0, 1, []), Message(NLMSG_DONE, 0, 2, []);
    PlainlyIsWell(e, link);
    LinkIsLostBehindForeign(e, d, LinkMessage(e, d, 2), foreign, done, 2);
  }
}
