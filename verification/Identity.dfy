/**
 * The text a node's content-derived id is hashed from. Raw fields are escaped so that
 * different contents never spell the same text.
 */
module Identity {
  import opened Common

  predicate Special(c: char) { c == '|' || c == '\\' }

  predicate Plain(s: string) { forall i :: 0 <= i < |s| ==> !Special(s[i]) }

  function EscapedChar(c: char): string { if Special(c) then ['\\', c] else [c] }

  function Escaped(value: string): string {
    if value == "" then "" else EscapedChar(value[0]) + Escaped(value[1..])
  }

  lemma {:induction false} EscapedConcat(a: string, b: string)
    ensures Escaped(a + b) == Escaped(a) + Escaped(b)
  {
    if a == "" {
      assert a + b == b;
    } else {
      assert (a + b)[1..] == a[1..] + b;
      EscapedConcat(a[1..], b);
      Associate(EscapedChar(a[0]), Escaped(a[1..]), Escaped(b));
    }
  }

  lemma EscapedSnoc(a: string, c: char)
    ensures Escaped(a + [c]) == Escaped(a) + EscapedChar(c)
  {
    EscapedConcat(a, [c]);
    assert Escaped([c]) == EscapedChar(c) + Escaped([c][1..]);
  }

  lemma {:induction false} EscapedLength(value: string)
    ensures |Escaped(value)| >= |value|
    ensures |Escaped(value)| == |value| <==> Plain(value)
    ensures Plain(value) ==> Escaped(value) == value
  {
    if value != "" {
      EscapedLength(value[1..]);
      assert value == [value[0]] + value[1..];
      assert Plain(value) <==> !Special(value[0]) && Plain(value[1..]) by {
        if !Special(value[0]) && Plain(value[1..]) {
          assert forall i :: 0 < i < |value| ==> value[i] == value[1..][i - 1];
        }
        if Plain(value) {
          assert forall i :: 0 <= i < |value| - 1 ==> value[1..][i] == value[i + 1];
        }
      }
    }
  }

  /** Ordinary fields keep their text, and no others do. */
  lemma UnchangedExactly(value: string)
    ensures Escaped(value) == value <==> Plain(value)
  {
    EscapedLength(value);
  }

  method IdentityField(value: string) returns (field: string)
    ensures field == Escaped(value)
  {
    var escapes := 0;
    for i := 0 to |value|
      invariant escapes >= 0 && (escapes == 0 <==> Plain(value[..i]))
    {
      assert value[..i + 1] == value[..i] + [value[i]];
      if Special(value[i]) {
        assert Special(value[..i + 1][i]);
        escapes := escapes + 1;
      } else if escapes > 0 {
        var j :| 0 <= j < i && Special(value[..i][j]);
        assert value[..i + 1][j] == value[..i][j];
      }
    }
    assert value[..|value|] == value;
    if escapes == 0 {
      UnchangedExactly(value);
      return value;
    }
    field := "";
    for i := 0 to |value|
      invariant field == Escaped(value[..i])
    {
      assert value[..i + 1] == value[..i] + [value[i]];
      EscapedSnoc(value[..i], value[i]);
      if Special(value[i]) {
        field := field + ['\\'];
      }
      field := field + [value[i]];
    }
  }

  // ---- Reading a field back ---------------------------------------------------------------

  /** The first field of a text, unescaped, and what follows its separator if there is one. */
  datatype Cut = Cut(field: string, rest: Option<string>)

  function CutField(text: string): Cut {
    if text == "" then Cut("", None)
    else if text[0] == '|' then Cut("", Some(text[1..]))
    else if text[0] == '\\' && |text| > 1 then
      var tail := CutField(text[2..]);
      Cut([text[1]] + tail.field, tail.rest)
    else
      var tail := CutField(text[1..]);
      Cut([text[0]] + tail.field, tail.rest)
  }

  lemma CutChar(c: char, text: string)
    ensures CutField(EscapedChar(c) + text)
            == Cut([c] + CutField(text).field, CutField(text).rest)
  {
    var whole := EscapedChar(c) + text;
    assert whole[|EscapedChar(c)|..] == text;
  }

  function Followed(rest: Option<string>): string {
    if rest.None? then "" else ['|'] + rest.value
  }

  /** An escaped field followed by nothing or by a separator is read back exactly. */
  lemma {:induction false} FieldReadsBack(value: string, rest: Option<string>)
    ensures CutField(Escaped(value) + Followed(rest)) == Cut(value, rest)
  {
    if value == "" {
      assert Escaped(value) + Followed(rest) == Followed(rest);
      if rest.Some? {
        assert (['|'] + rest.value)[1..] == rest.value;
      }
    } else {
      FieldReadsBack(value[1..], rest);
      Associate(EscapedChar(value[0]), Escaped(value[1..]), Followed(rest));
      CutChar(value[0], Escaped(value[1..]) + Followed(rest));
      assert [value[0]] + value[1..] == value;
    }
  }

  // ---- Joined fields -----------------------------------------------------------------------------

  function Joined(fields: seq<string>): string {
    if fields == [] then ""
    else if |fields| == 1 then Escaped(fields[0])
    else Escaped(fields[0]) + (['|'] + Joined(fields[1..]))
  }

  lemma JoinedCut(fields: seq<string>)
    requires fields != []
    ensures CutField(Joined(fields))
            == Cut(fields[0], if |fields| == 1 then None else Some(Joined(fields[1..])))
  {
    var rest := if |fields| == 1 then None else Some(Joined(fields[1..]));
    FieldReadsBack(fields[0], rest);
    assert Escaped(fields[0]) + "" == Escaped(fields[0]);
    assert Joined(fields) == Escaped(fields[0]) + Followed(rest);
  }

  lemma {:induction false} JoinedInjective(a: seq<string>, b: seq<string>)
    requires a != [] && b != [] && Joined(a) == Joined(b)
    ensures a == b
  {
    JoinedCut(a);
    JoinedCut(b);
    assert a == [a[0]] + a[1..] && b == [b[0]] + b[1..];
    if |a| > 1 {
      JoinedInjective(a[1..], b[1..]);
    }
  }

  /** The only two lists of fields with one text are no fields and one empty field. */
  lemma JoinedEqualExactly(a: seq<string>, b: seq<string>)
    ensures Joined(a) == Joined(b) <==> a == b || (a == [] && b == [""]) || (a == [""] && b == [])
  {
    if a != [] && b != [] {
      if Joined(a) == Joined(b) {
        JoinedInjective(a, b);
      }
    } else if a == [] && b != [] && Joined(b) == "" {
      JoinedCut(b);
      assert b == [b[0]];
    } else if b == [] && a != [] && Joined(a) == "" {
      JoinedCut(a);
      assert a == [a[0]];
    }
  }

  lemma Regroup(f: string, bar: string, j: string, l: string)
    ensures f + (bar + (j + bar + l)) == f + (bar + j) + bar + l
  {
    Associate(j, bar, l);
    Associate(bar, j, bar + l);
    Associate(f, bar + j, bar + l);
    Associate(f + (bar + j), bar, l);
  }

  lemma {:induction false} JoinedSnoc(fields: seq<string>, last: string)
    requires fields != []
    ensures Joined(fields + [last]) == Joined(fields) + ['|'] + Escaped(last)
  {
    assert (fields + [last])[1..] == fields[1..] + [last];
    if |fields| > 1 {
      JoinedSnoc(fields[1..], last);
      Regroup(Escaped(fields[0]), ['|'], Joined(fields[1..]), Escaped(last));
    } else {
      assert (fields[1..] + [last])[0] == last;
      Associate(Escaped(fields[0]), ['|'], Escaped(last));
    }
  }

  method IdentityJoin(fields: seq<string>) returns (identity: string)
    ensures identity == Joined(fields)
  {
    identity := "";
    for i := 0 to |fields|
      invariant identity == Joined(fields[..i])
    {
      assert fields[..i + 1] == fields[..i] + [fields[i]];
      if i != 0 {
        JoinedSnoc(fields[..i], fields[i]);
        identity := identity + ['|'];
      }
      var field := IdentityField(fields[i]);
      identity := identity + field;
    }
    assert fields[..|fields|] == fields;
  }

  // ---- A node's material ------------------------------------------------------------------------------

  datatype NodeProtocol =
    SS | Trojan | VMess | VLess | Socks5 | Hysteria2 | Tuic | Juicity | AnyTLS | Direct | Block

  function AsStr(p: NodeProtocol): (s: string)
    ensures Plain(s)
  {
    match p
    case SS => "ss"
    case Trojan => "trojan"
    case VMess => "vmess"
    case VLess => "vless"
    case Socks5 => "socks5"
    case Hysteria2 => "hysteria2"
    case Tuic => "tuic"
    case Juicity => "juicity"
    case AnyTLS => "anytls"
    case Direct => "direct"
    case Block => "block"
  }

  lemma AsStrInjective(p: NodeProtocol, q: NodeProtocol)
    requires AsStr(p) == AsStr(q)
    ensures p == q
  {
    assert |AsStr(p)| == |AsStr(q)| && AsStr(p)[0] == AsStr(q)[0] && AsStr(p)[1] == AsStr(q)[1];
  }

  function Digit(n: nat): char
    requires n < 10
  {
    '0' + n as char
  }

  /** Decimal, without leading zeros. */
  function Decimal(n: nat): (s: string)
    ensures s != "" && Plain(s)
  {
    if n < 10 then [Digit(n)] else Decimal(n / 10) + [Digit(n % 10)]
  }

  function Value(s: string): int {
    if s == "" then 0 else 10 * Value(s[..|s| - 1]) + (s[|s| - 1] as int - '0' as int)
  }

  lemma {:induction false} DecimalReadsBack(n: nat)
    ensures Value(Decimal(n)) == n
  {
    if n < 10 {
      assert Value([Digit(n)][..0]) == 0;
    } else {
      DecimalReadsBack(n / 10);
      assert Decimal(n)[..|Decimal(n)| - 1] == Decimal(n / 10);
    }
  }

  /** The credential and dial-shape fingerprints are texts of their own. */
  datatype Node = Node(protocol: NodeProtocol, host: string, port: nat, credential: string, dialShape: string)

  function Remaining(n: Node): string { n.credential + "|" + n.dialShape }

  function Material(n: Node): string {
    AsStr(n.protocol) + (['|'] + (Escaped(n.host) + (['|'] + (Decimal(n.port) + (['|'] + Remaining(n))))))
  }

  lemma PlainCut(field: string, rest: string)
    requires Plain(field)
    ensures CutField(field + (['|'] + rest)) == Cut(field, Some(rest))
  {
    UnchangedExactly(field);
    FieldReadsBack(field, Some(rest));
  }

  lemma MaterialCuts(n: Node)
    ensures var tail := Escaped(n.host) + (['|'] + (Decimal(n.port) + (['|'] + Remaining(n))));
            var last := Decimal(n.port) + (['|'] + Remaining(n));
            && CutField(Material(n)) == Cut(AsStr(n.protocol), Some(tail))
            && CutField(tail) == Cut(n.host, Some(last))
            && CutField(last) == Cut(Decimal(n.port), Some(Remaining(n)))
  {
    var last := Decimal(n.port) + (['|'] + Remaining(n));
    PlainCut(AsStr(n.protocol), Escaped(n.host) + (['|'] + last));
    FieldReadsBack(n.host, Some(last));
    PlainCut(Decimal(n.port), Remaining(n));
  }

  /** Two nodes have one material exactly when they agree on every part of it. */
  lemma MaterialEqualExactly(n: Node, m: Node)
    ensures Material(n) == Material(m) <==>
              n.protocol == m.protocol && n.host == m.host && n.port == m.port && Remaining(n) == Remaining(m)
  {
    if Material(n) == Material(m) {
      MaterialCuts(n);
      MaterialCuts(m);
      AsStrInjective(n.protocol, m.protocol);
      DecimalReadsBack(n.port);
      DecimalReadsBack(m.port);
    }
  }
}
