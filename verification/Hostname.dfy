/** Host names as the sniffer accepts them: the label-by-label check and the rules it amounts to. */
module Hostname {
  import opened Common

  const DOT: Byte := 46
  const HYPHEN: Byte := 45

  predicate IsAlphanumeric(b: Byte) {
    48 <= b <= 57 || 65 <= b <= 90 || 97 <= b <= 122
  }

  predicate IsLabel(part: Bytes) {
    && 1 <= |part| <= 63
    && IsAlphanumeric(part[0]) && IsAlphanumeric(part[|part| - 1])
    && forall i :: 0 <= i < |part| ==> IsAlphanumeric(part[i]) || part[i] == HYPHEN
  }

  /** Index of the first dot, or the length when there is none. */
  function FirstDot(h: Bytes): (i: nat)
    ensures i <= |h| && (i < |h| ==> h[i] == DOT)
    ensures forall j :: 0 <= j < i ==> h[j] != DOT
  {
    if h == [] || h[0] == DOT then 0 else 1 + FirstDot(h[1..])
  }

  predicate LabelsValid(h: Bytes)
    decreases |h|
  {
    var i := FirstDot(h);
    IsLabel(h[..i]) && (i == |h| || LabelsValid(h[i + 1..]))
  }

  predicate IsValidHostname(h: Bytes) {
    0 < |h| <= 253 && LabelsValid(h)
  }

  /** No label reaches 64 bytes: a dot occurs among any 64 consecutive bytes. */
  ghost predicate DotWithin(h: Bytes, lo: nat) {
    exists j :: lo <= j < lo + 64 && j < |h| && h[j] == DOT
  }

  ghost predicate LabelsShort(h: Bytes) {
    forall lo: nat {:trigger DotWithin(h, lo)} :: lo + 64 <= |h| ==> DotWithin(h, lo)
  }

  /** Every dot separates two alphanumeric bytes. */
  ghost predicate DotsSeparate(h: Bytes) {
    forall i :: 0 < i < |h| - 1 ==> Separates(h, i)
  }

  ghost predicate Separates(h: Bytes, i: nat)
    requires 0 < i < |h| - 1
  {
    h[i] == DOT ==> IsAlphanumeric(h[i - 1]) && IsAlphanumeric(h[i + 1])
  }

  ghost predicate BytesAllowed(h: Bytes) {
    forall i :: 0 <= i < |h| ==> IsAlphanumeric(h[i]) || h[i] == HYPHEN || h[i] == DOT
  }

  /** The same check written without splitting: what each byte and its neighbours may be. */
  ghost predicate LabelRules(h: Bytes) {
    && h != []
    && BytesAllowed(h)
    && IsAlphanumeric(h[0]) && IsAlphanumeric(h[|h| - 1])
    && DotsSeparate(h)
    && LabelsShort(h)
  }

  ghost predicate HostnameRules(h: Bytes) {
    |h| <= 253 && LabelRules(h)
  }

  /** Dropping a prefix moves the window along with it. */
  lemma DotWithinTail(h: Bytes, k: nat, lo: nat)
    requires k <= |h|
    ensures DotWithin(h[k..], lo) <==> DotWithin(h, k + lo)
  {
    if DotWithin(h, k + lo) {
      var j :| k + lo <= j < k + lo + 64 && j < |h| && h[j] == DOT;
      assert h[k..][j - k] == DOT;
    }
    if DotWithin(h[k..], lo) {
      var j :| lo <= j < lo + 64 && j < |h| - k && h[k..][j] == DOT;
      assert h[k + j] == DOT;
    }
  }

  lemma RulesOfTail(h: Bytes, i: nat)
    requires LabelRules(h) && i < |h| && h[i] == DOT
    ensures LabelRules(h[i + 1..])
  {
    var tail := h[i + 1..];
    assert Separates(h, i) by { assert 0 < i < |h| - 1; }
    assert tail[0] == h[i + 1] && tail[|tail| - 1] == h[|h| - 1];
    forall j | 0 < j < |tail| - 1 ensures Separates(tail, j) {
      assert Separates(h, i + 1 + j);
    }
    forall lo: nat | lo + 64 <= |tail| ensures DotWithin(tail, lo) {
      DotWithinTail(h, i + 1, lo);
    }
  }

  lemma RulesOfFirstLabel(h: Bytes)
    requires LabelRules(h)
    ensures IsLabel(h[..FirstDot(h)])
  {
    var i := FirstDot(h);
    assert |h| >= 64 ==> DotWithin(h, 0);
    if 0 < i < |h| - 1 {
      assert Separates(h, i);
    }
  }

  lemma DotsFromParts(h: Bytes, i: nat)
    requires 0 < i < |h| - 1 && (forall j :: 0 <= j < i ==> h[j] != DOT) && IsAlphanumeric(h[i - 1])
    requires IsAlphanumeric(h[i + 1]) && DotsSeparate(h[i + 1..])
    ensures DotsSeparate(h)
  {
    var tail := h[i + 1..];
    forall j | 0 < j < |h| - 1 ensures Separates(h, j) {
      if j > i + 1 {
        assert Separates(tail, j - i - 1);
      }
    }
  }

  lemma ShortFromParts(h: Bytes, i: nat)
    requires i < 64 && i < |h| && h[i] == DOT && LabelsShort(h[i + 1..])
    ensures LabelsShort(h)
  {
    forall lo: nat | lo + 64 <= |h| ensures DotWithin(h, lo) {
      if lo > i {
        DotWithinTail(h, i + 1, lo - i - 1);
      }
    }
  }

  lemma BytesFromParts(h: Bytes, i: nat)
    requires i < |h| && h[i] == DOT && IsLabel(h[..i]) && BytesAllowed(h[i + 1..])
    ensures BytesAllowed(h)
  {
    forall j | 0 <= j < |h| ensures IsAlphanumeric(h[j]) || h[j] == HYPHEN || h[j] == DOT {
      if j < i { assert h[j] == h[..i][j]; } else if j > i { assert h[j] == h[i + 1..][j - i - 1]; }
    }
  }

  lemma RulesFromParts(h: Bytes, i: nat)
    requires i < |h| && h[i] == DOT && (forall j :: 0 <= j < i ==> h[j] != DOT)
    requires IsLabel(h[..i]) && LabelRules(h[i + 1..])
    ensures LabelRules(h)
  {
    var tail := h[i + 1..];
    BytesFromParts(h, i);
    assert tail[0] == h[i + 1] && tail[|tail| - 1] == h[|h| - 1];
    DotsFromParts(h, i);
    ShortFromParts(h, i);
  }

  lemma RulesOfOneLabel(h: Bytes)
    requires FirstDot(h) == |h| && IsLabel(h[..|h|])
    ensures LabelRules(h)
  {
    assert h[..|h|] == h;
  }

  lemma {:induction false} ValidLabelsObeyRules(h: Bytes)
    requires LabelsValid(h)
    ensures LabelRules(h)
    decreases |h|
  {
    var i := FirstDot(h);
    if i < |h| {
      ValidLabelsObeyRules(h[i + 1..]);
      RulesFromParts(h, i);
    } else {
      RulesOfOneLabel(h);
    }
  }

  lemma {:induction false} RulesMakeLabelsValid(h: Bytes)
    requires LabelRules(h)
    ensures LabelsValid(h)
    decreases |h|
  {
    var i := FirstDot(h);
    RulesOfFirstLabel(h);
    if i < |h| {
      RulesOfTail(h, i);
      RulesMakeLabelsValid(h[i + 1..]);
    }
  }

  /** Checking label by label decides exactly the byte rules. */
  lemma ValidHostnamesFollowRules(h: Bytes)
    ensures IsValidHostname(h) <==> HostnameRules(h)
  {
    if LabelsValid(h) {
      ValidLabelsObeyRules(h);
    }
    if LabelRules(h) {
      RulesMakeLabelsValid(h);
    }
  }

  /** The check as it runs: one label after the other. */
  method CheckHostname(h: Bytes) returns (ok: bool)
    ensures ok <==> IsValidHostname(h)
  {
    if |h| == 0 || |h| > 253 {
      return false;
    }
    var pos := 0;
    while true
      invariant 0 <= pos <= |h|
      invariant LabelsValid(h) <==> LabelsValid(h[pos..])
      decreases |h| - pos
    {
      var rest := h[pos..];
      var dot := FirstDot(rest);
      if !IsLabel(rest[..dot]) {
        return false;
      }
      if dot == |rest| {
        return true;
      }
      assert rest[dot + 1..] == h[pos + dot + 1..];
      pos := pos + dot + 1;
    }
  }
}
