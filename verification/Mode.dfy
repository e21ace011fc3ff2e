/**
 * The outbound mode and the datapath flag word derived from it.
 *
 * `ModeState` is what routing reads, `FlagsState` is what the flags owner keeps
 * beside it, and `Compose` is the word the kernel datapath sees.
 */
module Mode {
  import opened Common

  type Uuid = nat
  type Word = bv32

  const DIRECT_NODE_ID: Uuid := 0x00000000_0000_4000_8000_00000000d1ec

  const OFFLOAD_RULE_DIRECT: Word := 1
  const OFFLOAD_ALL: Word := 2
  const TRACE_ENABLED: Word := 4
  const NFQ_ENABLED: Word := 8
  const NFQ_READY: Word := 16

  datatype ModeTarget =
    | Node(id: Uuid, name: string)
    | Group(gid: string, name: string)
  {
    predicate Present(config: Config, groups: map<string, string>) {
      match this
      case Node(id, _) => exists i :: 0 <= i < |config.nodes| && config.nodes[i].id == id
      case Group(gid, name) => name in groups && groups[name] == gid
    }
  }

  /** The parts of a configuration that mode changes read. */
  datatype Config = Config(nodes: seq<ConfigNode>, groupNames: seq<string>)
  datatype ConfigNode = ConfigNode(id: Uuid, name: string)

  datatype Selection = Name(name: string) | Target(target: Option<ModeTarget>)

  datatype ModeSource = FromConfig | FromRuntime

  datatype ModeOverride = Unchanged | Direct | Block | ToNode(id: Uuid) | ToGroup(name: string)

  function LowerChar(c: char): char {
    if 'A' <= c <= 'Z' then c - 'A' + 'a' else c
  }

  function Lower(s: string): (r: string)
    ensures |r| == |s|
  {
    seq(|s|, i requires 0 <= i < |s| => LowerChar(s[i]))
  }

  datatype ModeState = ModeState(mode: string, selection: Selection, source: ModeSource) {
    predicate IsNative() { selection.Target? }
    predicate IsRule() { Lower(mode) == "rule" }
    predicate IsGlobal() { Lower(mode) == "global" }
    predicate IsDirect() { Lower(mode) == "direct" }

    predicate IsCanonical() { mode == "Rule" || mode == "Global" || mode == "Direct" }

    function DirectOffloadModeBits(): Word {
      if IsGlobal() then
        var direct := match selection
          case Name(name) => name == "direct"
          case Target(target) =>
            target.Some? && target.value.Node? && target.value.id == DIRECT_NODE_ID;
        if direct then OFFLOAD_ALL else 0
      else if IsDirect() then OFFLOAD_ALL
      else if IsRule() then OFFLOAD_RULE_DIRECT
      else 0
    }

    /** Identity-aware override used by native processes. */
    function NativeOverride(outbound: string, must: bool, config: Config, groups: map<string, string>): ModeOverride {
      if !selection.Target? || must || outbound == "block" || IsRule() then Unchanged
      else if IsDirect() then Direct
      else if selection.target.Some? && selection.target.value.Present(config, groups) then
        match selection.target.value
        case Node(id, _) => ToNode(id)
        case Group(_, name) => ToGroup(name)
      else Block
    }

    /** Name-based override used by legacy processes. */
    function OverrideOutbound(outbound: string, must: bool, resolvable: bool): string {
      if must || outbound == "block" then outbound
      else if IsDirect() then "direct"
      else if IsGlobal() then
        match selection
        case Name(name) => if name != "" && resolvable then name else outbound
        case Target(_) => "block"
      else outbound
    }
  }

  function Normalize(mode: string): Option<string> {
    if Lower(mode) == "rule" then Some("Rule")
    else if Lower(mode) == "global" then Some("Global")
    else if Lower(mode) == "direct" then Some("Direct")
    else None
  }

  function NativeMode(): ModeState {
    ModeState("Rule", Target(None), FromConfig)
  }

  datatype FlagsState = FlagsState(
    nfqueueEnabled: bool,
    nfqueueReady: bool,
    traceEnabled: bool,
    initialized: bool,
    quiescenceFailed: bool)

  const FRESH_FLAGS := FlagsState(false, false, false, false, false)

  function Compose(st: FlagsState, mode: ModeState): Word {
    mode.DirectOffloadModeBits()
    | (if st.nfqueueEnabled then NFQ_ENABLED | (if st.nfqueueReady then NFQ_READY else 0) else 0)
    | (if st.traceEnabled then TRACE_ENABLED else 0)
  }

  predicate Has(w: Word, flag: Word) { w & flag != 0 }

  lemma CanonicalModes(m: ModeState)
    requires m.IsCanonical()
    ensures m.IsRule() <==> m.mode == "Rule"
    ensures m.IsGlobal() <==> m.mode == "Global"
    ensures m.IsDirect() <==> m.mode == "Direct"
  {
    assert Lower("Rule") == "rule";
    assert Lower("Global") == "global";
    assert Lower("Direct") == "direct";
    assert "global"[0] != "direct"[0];
  }

  /** Every bit of the composed word means exactly one thing. */
  lemma ComposeBits(st: FlagsState, mode: ModeState)
    ensures Has(Compose(st, mode), NFQ_READY) <==> st.nfqueueEnabled && st.nfqueueReady
    ensures Has(Compose(st, mode), NFQ_ENABLED) <==> st.nfqueueEnabled
    ensures Has(Compose(st, mode), TRACE_ENABLED) <==> st.traceEnabled
    ensures Has(Compose(st, mode), OFFLOAD_ALL) <==> mode.DirectOffloadModeBits() == OFFLOAD_ALL
    ensures Has(Compose(st, mode), OFFLOAD_RULE_DIRECT) <==> mode.DirectOffloadModeBits() == OFFLOAD_RULE_DIRECT
  {
  }

  /** Whether userspace sends a flow that is neither `must` nor `block` to the direct outbound. */
  predicate RoutesDirect(
    m: ModeState, outbound: string, config: Config, groups: map<string, string>, resolvable: bool)
  {
    if m.IsNative() then
      m.NativeOverride(outbound, false, config, groups) in {Direct, ToNode(DIRECT_NODE_ID)}
    else
      m.OverrideOutbound(outbound, false, resolvable) == "direct"
  }

  /** Whether userspace leaves every routing decision as it is. */
  ghost predicate RoutesUnchanged(m: ModeState, config: Config, groups: map<string, string>, resolvable: bool) {
    forall outbound, must ::
      if m.IsNative() then m.NativeOverride(outbound, must, config, groups) == Unchanged
      else m.OverrideOutbound(outbound, must, resolvable) == outbound
  }

  /** The builtin direct node exists and, when GLOBAL names it, the name resolves. */
  predicate DirectAvailable(m: ModeState, config: Config, resolvable: bool) {
    && (exists i :: 0 <= i < |config.nodes| && config.nodes[i].id == DIRECT_NODE_ID)
    && (m.selection == Name("direct") ==> resolvable)
  }

  /** The kernel may skip userspace for all flows exactly when userspace would send them all direct. */
  lemma OffloadAllIffEveryFlowIsDirect(
    m: ModeState, config: Config, groups: map<string, string>, resolvable: bool)
    requires m.IsCanonical() && DirectAvailable(m, config, resolvable)
    ensures m.DirectOffloadModeBits() == OFFLOAD_ALL
            <==> forall outbound :: outbound != "block" ==> RoutesDirect(m, outbound, config, groups, resolvable)
  {
    CanonicalModes(m);
    assert "proxy"[0] != "direct"[0] && "proxy"[0] != "block"[0];
    if forall outbound :: outbound != "block" ==> RoutesDirect(m, outbound, config, groups, resolvable) {
      assert RoutesDirect(m, "proxy", config, groups, resolvable);
    }
  }

  /** The rule-direct bit is set exactly in Rule mode, where the override is the identity. */
  lemma RuleOffloadLeavesRoutesUnchanged(
    m: ModeState, config: Config, groups: map<string, string>, resolvable: bool)
    requires m.IsCanonical()
    ensures m.DirectOffloadModeBits() == OFFLOAD_RULE_DIRECT <==> m.mode == "Rule"
    ensures m.mode == "Rule" ==> RoutesUnchanged(m, config, groups, resolvable)
  {
    CanonicalModes(m);
  }

  /** A native Global target that the configuration no longer holds blocks instead of falling back. */
  lemma MissingNativeTargetBlocks(m: ModeState, outbound: string, config: Config, groups: map<string, string>)
    requires m.IsCanonical() && m.IsNative() && m.mode == "Global" && outbound != "block"
    ensures m.NativeOverride(outbound, false, config, groups) == Block
            <==> m.selection.target.None? || !m.selection.target.value.Present(config, groups)
  {
    CanonicalModes(m);
  }
}
