/**
 * Closing tracked connections, as interleaved steps.
 *
 * A close signal moves Active -> Closing -> Closed or Failed. Closers work from a
 * snapshot of (connection id, owner) pairs, claim each owner that is still the one
 * registered, run its close action, and wait for the signal. Meanwhile connections
 * are registered, removed and registered again under the same id, and owners report
 * completion (or are dropped, which counts as a failed completion).
 */
module CloseProtocol {
  import opened Common

  type ConnId = string
  type OwnerId = nat
  type SignalId = nat
  type CloserId = nat

  datatype Phase = Active | Closing | Closed | Failed {
    predicate Terminal() { Closed? || Failed? }
  }

  datatype CloseOutcome = WasClosed | Gone | NotClosable | CloseFailed

  datatype CloseAction = Tcp | Udp

  datatype Owner = Owner(signal: SignalId, action: CloseAction)

  datatype Selected = Selected(id: ConnId, owner: Option<OwnerId>)

  datatype Request = Immediate(outcome: CloseOutcome) | Pending(signal: SignalId)

  /** A closer has started `requests` for a prefix of its selection; waits may end in any order. */
  datatype Closer = Closer(
    selected: seq<Selected>,
    requests: seq<Request>,
    acting: Option<OwnerId>,
    results: map<nat, CloseOutcome>)
  {
    predicate Waiting() { |requests| == |selected| && acting.None? }
  }

  datatype ClaimState = Claimed(closer: CloserId) | Ran(closer: CloserId)

  /** The tracker, its owners and signals, and a history of claims, actions run and reports. */
  datatype Core = Core(
    entries: map<ConnId, Option<OwnerId>>,
    owners: map<OwnerId, Owner>,
    phases: map<SignalId, Phase>,
    claims: map<OwnerId, ClaimState>,
    runs: seq<OwnerId>,
    finishes: map<SignalId, seq<bool>>)

  datatype System = System(core: Core, closers: map<CloserId, Closer>)

  const EMPTY := System(Core(map[], map[], map[], map[], [], map[]), map[])

  datatype Step =
    | NewSignal(signal: SignalId)
    | Register(id: ConnId)
    | RegisterOwned(id: ConnId, owner: OwnerId, signal: SignalId, action: CloseAction)
    | Remove(id: ConnId)
    | Clear
    | Select(c: CloserId, selection: seq<Selected>)
    | Claim(c: CloserId)
    | Act(c: CloserId, ok: bool)
    | Report(signal: SignalId, success: bool)
    | Wait(c: CloserId, i: nat)

  predicate Enabled(s: System, step: Step) {
    match step
    case NewSignal(signal) => signal !in s.core.phases
    case Register(_) => true
    case RegisterOwned(_, owner, signal, _) => owner !in s.core.owners && signal in s.core.phases
    case Remove(_) => true
    case Clear => true
    case Select(c, selection) =>
      && c !in s.closers
      && forall i :: 0 <= i < |selection| ==>
           selection[i].id in s.core.entries && s.core.entries[selection[i].id] == selection[i].owner
    case Claim(c) =>
      c in s.closers && s.closers[c].acting.None? && |s.closers[c].requests| < |s.closers[c].selected|
    case Act(c, _) => c in s.closers && s.closers[c].acting.Some?
    case Report(signal, _) => signal in s.core.phases
    case Wait(c, i) =>
      && c in s.closers && s.closers[c].Waiting()
      && i < |s.closers[c].requests| && i !in s.closers[c].results
      && Settled(s.core, s.closers[c].requests[i])
  }

  /** Whether a wait on the request can return. */
  predicate Settled(k: Core, request: Request) {
    request.Pending? ==> request.signal in k.phases && k.phases[request.signal].Terminal()
  }

  function OutcomeOf(k: Core, request: Request): CloseOutcome {
    match request
    case Immediate(outcome) => outcome
    case Pending(signal) => if signal in k.phases && k.phases[signal].Closed? then WasClosed else CloseFailed
  }

  /** The first report decides; later ones change nothing but the record of reports. */
  function Finish(k: Core, signal: SignalId, success: bool): Core {
    if signal !in k.phases then k
    else
      var reports := if signal in k.finishes then k.finishes[signal] else [];
      k.(finishes := k.finishes[signal := reports + [success]],
         phases := if k.phases[signal].Terminal() then k.phases
                   else k.phases[signal := if success then Closed else Failed])
  }

  datatype Start = Answered(request: Request) | MayClaim(owner: OwnerId)

  /** What the tracker says about a selected connection when its close is started. */
  function LookUp(k: Core, target: Selected): Start {
    if target.id !in k.entries then Answered(Immediate(Gone))
    else
      match (k.entries[target.id], target.owner)
      case (None, None) => Answered(Immediate(NotClosable))
      case (Some(current), Some(selected)) =>
        if current == selected && selected in k.owners && k.owners[selected].signal in k.phases then
          if k.phases[k.owners[selected].signal].Active? then MayClaim(selected)
          else Answered(Pending(k.owners[selected].signal))
        else Answered(Immediate(Gone))
      case _ => Answered(Immediate(Gone))
  }

  function WithClaim(k: Core, c: CloserId, o: OwnerId): Core {
    if o in k.owners then
      k.(phases := k.phases[k.owners[o].signal := Closing], claims := k.claims[o := Claimed(c)])
    else k
  }

  /** Running the close action; a UDP endpoint that is gone or does not match cannot acknowledge it. */
  function WithAction(k: Core, c: CloserId, o: OwnerId, ok: bool): Core {
    var ran := k.(runs := k.runs + [o], claims := k.claims[o := Ran(c)]);
    if o in k.owners && k.owners[o].action.Udp? && !ok then Finish(ran, k.owners[o].signal, false) else ran
  }

  function WithRequest(closer: Closer, request: Request): Closer {
    closer.(requests := closer.requests + [request], acting := None)
  }

  function Do(s: System, step: Step): System
    requires Enabled(s, step)
  {
    var k := s.core;
    match step
    case NewSignal(signal) => s.(core := k.(phases := k.phases[signal := Active]))
    case Register(id) => s.(core := k.(entries := k.entries[id := None]))
    case RegisterOwned(id, owner, signal, action) =>
      s.(core := k.(entries := k.entries[id := Some(owner)], owners := k.owners[owner := Owner(signal, action)]))
    case Remove(id) => s.(core := k.(entries := k.entries - {id}))
    case Clear => s.(core := k.(entries := map[]))
    case Select(c, selection) => s.(closers := s.closers[c := Closer(selection, [], None, map[])])
    case Claim(c) =>
      var closer := s.closers[c];
      match LookUp(k, closer.selected[|closer.requests|]) {
        case Answered(request) => s.(closers := s.closers[c := WithRequest(closer, request)])
        case MayClaim(o) => System(WithClaim(k, c, o), s.closers[c := closer.(acting := Some(o))])
      }
    case Act(c, ok) =>
      var o := s.closers[c].acting.value;
      var signal := if o in k.owners then k.owners[o].signal else 0;
      System(WithAction(k, c, o, ok), s.closers[c := WithRequest(s.closers[c], Pending(signal))])
    case Report(signal, success) => s.(core := Finish(k, signal, success))
    case Wait(c, i) =>
      var closer := s.closers[c];
      s.(closers := s.closers[c := closer.(results := closer.results[i := OutcomeOf(k, closer.requests[i])])])
  }

  ghost predicate IsRun(s: System, run: seq<Step>)
    decreases |run|
  {
    run == [] || (Enabled(s, run[0]) && IsRun(Do(s, run[0]), run[1..]))
  }

  ghost function After(s: System, run: seq<Step>): System
    requires IsRun(s, run)
    decreases |run|
  {
    if run == [] then s else After(Do(s, run[0]), run[1..])
  }

  ghost predicate Reachable(s: System) {
    exists run :: IsRun(EMPTY, run) && After(EMPTY, run) == s
  }

  // ---- Invariant of the core ---------------------------------------------------------

  type Owners = map<OwnerId, Owner>
  type Phases = map<SignalId, Phase>

  /** Every registered or claimed owner exists, and so does its signal. */
  ghost predicate OwnersKnown(
      owners: Owners, signals: set<SignalId>, entries: map<ConnId, Option<OwnerId>>, claimed: set<OwnerId>) {
    && (forall o :: o in owners ==> owners[o].signal in signals)
    && (forall id :: id in entries && entries[id].Some? ==> entries[id].value in owners)
    && claimed <= owners.Keys
  }

  /** A signal is terminal exactly when it was reported on, and shows the first report. */
  ghost predicate FirstReportDecides(phases: Phases, finishes: map<SignalId, seq<bool>>) {
    && finishes.Keys <= phases.Keys
    && (forall g :: g in finishes ==> finishes[g] != [])
    && (forall g :: g in phases ==> (phases[g].Terminal() <==> g in finishes))
    && (forall g :: g in finishes && g in phases ==> (phases[g].Closed? <==> finishes[g][0]))
  }

  ghost predicate SignalLeftActive(owners: Owners, phases: Phases, o: OwnerId) {
    o in owners && owners[o].signal in phases && !phases[owners[o].signal].Active?
  }

  ghost predicate LeftActive(k: Core, o: OwnerId) { SignalLeftActive(k.owners, k.phases, o) }

  /** The signals of claimed owners have left Active. */
  ghost predicate ClaimsLeftActive(owners: Owners, phases: Phases, claimed: set<OwnerId>) {
    forall o :: o in claimed ==> SignalLeftActive(owners, phases, o)
  }

  ghost predicate OwnSignals(owners: Owners, o: OwnerId, p: OwnerId) {
    o in owners && p in owners && owners[o].signal == owners[p].signal ==> o == p
  }

  /** No two claimed owners share a signal. */
  ghost predicate ClaimsAreExclusive(owners: Owners, claimed: set<OwnerId>) {
    forall o, p :: o in claimed && p in claimed ==> OwnSignals(owners, o, p)
  }

  /** An action was run once for exactly the owners whose claim is marked as run. */
  ghost predicate RunsMatchClaims(runs: seq<OwnerId>, claims: map<OwnerId, ClaimState>) {
    && (forall i, j :: 0 <= i < j < |runs| ==> runs[i] != runs[j])
    && (forall o :: o in runs <==> o in claims && claims[o].Ran?)
  }

  ghost predicate CoreInv(k: Core) {
    && OwnersKnown(k.owners, k.phases.Keys, k.entries, k.claims.Keys)
    && FirstReportDecides(k.phases, k.finishes)
    && ClaimsLeftActive(k.owners, k.phases, k.claims.Keys)
    && ClaimsAreExclusive(k.owners, k.claims.Keys)
    && RunsMatchClaims(k.runs, k.claims)
  }

  /** Signals only move forward: nothing leaves a terminal phase or returns to Active. */
  ghost predicate PhasesForward(before: Phases, after: Phases) {
    forall g :: g in before ==>
      && g in after
      && (!before[g].Active? ==> !after[g].Active?)
      && (before[g].Terminal() ==> after[g] == before[g])
  }

  /** Owners are never changed. */
  ghost predicate OwnersKept(before: Owners, after: Owners) {
    forall o :: o in before ==> o in after && after[o] == before[o]
  }

  /** An owner that lost its place is never registered again. */
  ghost predicate PlacesKept(
      owners: Owners, before: map<ConnId, Option<OwnerId>>, after: map<ConnId, Option<OwnerId>>) {
    forall id, o :: o in owners && id in after && after[id] == Some(o) ==> id in before && before[id] == Some(o)
  }

  ghost predicate Forward(k: Core, k': Core) {
    && PhasesForward(k.phases, k'.phases)
    && OwnersKept(k.owners, k'.owners)
    && PlacesKept(k.owners, k.entries, k'.entries)
  }

  lemma ForwardKeepsLeftActive(owners: Owners, before: Phases, after: Phases, claimed: set<OwnerId>)
    requires ClaimsLeftActive(owners, before, claimed) && PhasesForward(before, after)
    ensures ClaimsLeftActive(owners, after, claimed)
  {
  }

  lemma FinishOk(k: Core, signal: SignalId, success: bool)
    requires CoreInv(k)
    ensures CoreInv(Finish(k, signal, success)) && Forward(k, Finish(k, signal, success))
  {
    var k' := Finish(k, signal, success);
    assert k'.phases.Keys == k.phases.Keys && PhasesForward(k.phases, k'.phases);
    ForwardKeepsLeftActive(k.owners, k.phases, k'.phases, k.claims.Keys);
  }

  lemma ClaimPhasesOk(k: Core, o: OwnerId, phases: Phases)
    requires CoreInv(k) && o in k.owners && k.phases[k.owners[o].signal].Active?
    requires phases == k.phases[k.owners[o].signal := Closing]
    ensures phases.Keys == k.phases.Keys && PhasesForward(k.phases, phases)
    ensures FirstReportDecides(phases, k.finishes)
    ensures ClaimsLeftActive(k.owners, phases, k.claims.Keys + {o})
  {
  }

  lemma ClaimStaysExclusive(k: Core, o: OwnerId)
    requires CoreInv(k) && o in k.owners && k.phases[k.owners[o].signal].Active?
    ensures o !in k.claims && ClaimsAreExclusive(k.owners, k.claims.Keys + {o})
  {
    forall p | p in k.claims
      ensures k.owners[p].signal != k.owners[o].signal
    {
      assert SignalLeftActive(k.owners, k.phases, p);
    }
    forall p, q | p in k.claims.Keys + {o} && q in k.claims.Keys + {o}
      ensures OwnSignals(k.owners, p, q)
    {
      if p in k.claims && q in k.claims {
        assert OwnSignals(k.owners, p, q);
      }
    }
  }

  lemma ClaimOk(k: Core, c: CloserId, o: OwnerId)
    requires CoreInv(k) && o in k.owners && k.phases[k.owners[o].signal].Active?
    ensures o !in k.claims && CoreInv(WithClaim(k, c, o)) && Forward(k, WithClaim(k, c, o))
  {
    var k' := WithClaim(k, c, o);
    ClaimPhasesOk(k, o, k'.phases);
    ClaimStaysExclusive(k, o);
    assert k'.claims.Keys == k.claims.Keys + {o};
  }

  lemma RunOk(k: Core, c: CloserId, o: OwnerId)
    requires CoreInv(k) && o in k.claims && k.claims[o] == Claimed(c)
    ensures CoreInv(k.(runs := k.runs + [o], claims := k.claims[o := Ran(c)]))
  {
    var claims := k.claims[o := Ran(c)];
    assert claims.Keys == k.claims.Keys;
    assert o !in k.runs;
    assert RunsMatchClaims(k.runs + [o], claims);
  }

  lemma ActionOk(k: Core, c: CloserId, o: OwnerId, ok: bool)
    requires CoreInv(k) && o in k.claims && k.claims[o] == Claimed(c)
    ensures var k' := WithAction(k, c, o, ok);
            && CoreInv(k') && Forward(k, k')
            && k'.owners == k.owners && k'.claims == k.claims[o := Ran(c)] && LeftActive(k', o)
  {
    var ran := k.(runs := k.runs + [o], claims := k.claims[o := Ran(c)]);
    RunOk(k, c, o);
    assert LeftActive(ran, o) && Forward(k, ran);
    if k.owners[o].action.Udp? && !ok {
      FinishOk(ran, k.owners[o].signal, false);
    }
  }

  /** Changing what ids stand for touches no owner, signal or record. */
  lemma EntriesOk(k: Core, entries: map<ConnId, Option<OwnerId>>)
    requires CoreInv(k)
    requires forall id :: id in entries ==> entries[id].None? || (id in k.entries && entries[id] == k.entries[id])
    ensures CoreInv(k.(entries := entries)) && Forward(k, k.(entries := entries))
  {
  }

  lemma RegisterOwnedOk(k: Core, id: ConnId, owner: OwnerId, signal: SignalId, action: CloseAction)
    requires CoreInv(k) && owner !in k.owners && signal in k.phases
    ensures var k' := k.(entries := k.entries[id := Some(owner)], owners := k.owners[owner := Owner(signal, action)]);
            CoreInv(k') && Forward(k, k')
  {
    var owners := k.owners[owner := Owner(signal, action)];
    assert OwnersKept(k.owners, owners);
    assert ClaimsLeftActive(owners, k.phases, k.claims.Keys);
    forall o, p | o in k.claims && p in k.claims
      ensures OwnSignals(owners, o, p)
    {
      assert OwnSignals(k.owners, o, p);
    }
  }

  lemma NewSignalOk(k: Core, signal: SignalId)
    requires CoreInv(k) && signal !in k.phases
    ensures CoreInv(k.(phases := k.phases[signal := Active])) && Forward(k, k.(phases := k.phases[signal := Active]))
  {
    var phases := k.phases[signal := Active];
    assert PhasesForward(k.phases, phases) && FirstReportDecides(phases, k.finishes);
    assert ClaimsLeftActive(k.owners, phases, k.claims.Keys);
  }

  lemma RegistryOk(s: System, step: Step)
    requires CoreInv(s.core) && Enabled(s, step)
    requires step.NewSignal? || step.Register? || step.RegisterOwned? || step.Remove? || step.Clear?
    ensures CoreInv(Do(s, step).core) && Forward(s.core, Do(s, step).core)
  {
    match step
    case NewSignal(signal) => NewSignalOk(s.core, signal);
    case RegisterOwned(id, owner, signal, action) => RegisterOwnedOk(s.core, id, owner, signal, action);
    case Register(id) => EntriesOk(s.core, s.core.entries[id := None]);
    case Remove(id) => EntriesOk(s.core, s.core.entries - {id});
    case Clear => EntriesOk(s.core, map[]);
  }

  // ---- Invariant of one closer ----------------------------------------------------------

  /** An owner whose close was started has left Active, or is not what its id stands for any more. */
  ghost predicate Handled(k: Core, target: Selected) {
    target.owner.Some? ==>
      LeftActive(k, target.owner.value) || target.id !in k.entries || k.entries[target.id] != target.owner
  }

  /** A request waits, if at all, on the signal of the owner it was started for. */
  ghost predicate RequestOk(k: Core, target: Selected, request: Request) {
    && Handled(k, target)
    && (request.Pending? ==>
          target.owner.Some? && target.owner.value in k.owners
          && request.signal == k.owners[target.owner.value].signal)
    && (request.Immediate? ==>
          if target.owner.None? then request.outcome in {Gone, NotClosable}
          else request.outcome == Gone && (target.id !in k.entries || k.entries[target.id] != target.owner))
  }

  ghost predicate SelectionKnown(k: Core, selected: seq<Selected>) {
    forall i :: 0 <= i < |selected| && selected[i].owner.Some? ==> selected[i].owner.value in k.owners
  }

  ghost predicate ProgressOk(k: Core, closer: Closer) {
    && |closer.requests| <= |closer.selected|
    && SelectionKnown(k, closer.selected)
    && (forall i :: 0 <= i < |closer.requests| ==> RequestOk(k, closer.selected[i], closer.requests[i]))
    && (forall i :: i in closer.results ==>
          && i < |closer.requests| && Settled(k, closer.requests[i])
          && closer.results[i] == OutcomeOf(k, closer.requests[i]))
  }

  /** A closer about to run an action holds the claim of the owner it is at. */
  ghost predicate ActingOk(k: Core, c: CloserId, closer: Closer) {
    closer.acting.Some? ==>
      && |closer.requests| < |closer.selected|
      && closer.selected[|closer.requests|].owner == closer.acting
      && closer.acting.value in k.claims && k.claims[closer.acting.value] == Claimed(c)
  }

  lemma ProgressGoesForward(k: Core, k': Core, closer: Closer)
    requires ProgressOk(k, closer) && Forward(k, k')
    ensures ProgressOk(k', closer)
  {
    forall i | 0 <= i < |closer.requests| ensures RequestOk(k', closer.selected[i], closer.requests[i]) {
      assert RequestOk(k, closer.selected[i], closer.requests[i]);
    }
  }

  /** Starting the next close: one more request, one fewer connection to go. */
  lemma RequestAdded(k: Core, closer: Closer, request: Request)
    requires ProgressOk(k, closer) && |closer.requests| < |closer.selected|
    requires RequestOk(k, closer.selected[|closer.requests|], request)
    ensures ProgressOk(k, WithRequest(closer, request))
  {
    var next := WithRequest(closer, request);
    assert forall i :: 0 <= i < |closer.requests| ==> next.requests[i] == closer.requests[i];
  }

  lemma LookUpOk(k: Core, target: Selected)
    requires OwnersKnown(k.owners, k.phases.Keys, k.entries, k.claims.Keys)
    ensures match LookUp(k, target)
            case Answered(request) => RequestOk(k, target, request)
            case MayClaim(o) => target.owner == Some(o) && o in k.owners && k.owners[o].signal in k.phases
                                && k.phases[k.owners[o].signal].Active?
                                && target.id in k.entries && k.entries[target.id] == Some(o)
  {
  }

  // ---- Invariant of the system ------------------------------------------------------------

  ghost predicate ClosersInv(k: Core, closers: map<CloserId, Closer>) {
    forall c :: c in closers ==> ProgressOk(k, closers[c]) && ActingOk(k, c, closers[c])
  }

  /** Whoever claimed an owner had selected exactly that owner. */
  ghost predicate ClaimsSelected(claims: map<OwnerId, ClaimState>, closers: map<CloserId, Closer>) {
    forall o :: o in claims ==> claims[o].closer in closers && HasSelected(closers[claims[o].closer], o)
  }

  ghost predicate HasSelected(closer: Closer, o: OwnerId) {
    exists i :: 0 <= i < |closer.selected| && closer.selected[i].owner == Some(o)
  }

  ghost predicate Inv(s: System) {
    CoreInv(s.core) && ClosersInv(s.core, s.closers) && ClaimsSelected(s.core.claims, s.closers)
  }

  /** If only closer `c` moves and its own invariant holds afterwards, all of them do. */
  lemma OneCloserMoves(k: Core, k': Core, closers: map<CloserId, Closer>, c: CloserId, closer: Closer)
    requires ClosersInv(k, closers) && Forward(k, k')
    requires ProgressOk(k', closer) && ActingOk(k', c, closer)
    requires forall o :: o in k.claims && k.claims[o] != Claimed(c) ==> o in k'.claims && k'.claims[o] == k.claims[o]
    ensures ClosersInv(k', closers[c := closer])
  {
    forall d | d in closers && d != c ensures ProgressOk(k', closers[d]) && ActingOk(k', d, closers[d]) {
      ProgressGoesForward(k, k', closers[d]);
    }
  }

  lemma NoCloserMoves(k: Core, k': Core, closers: map<CloserId, Closer>)
    requires ClosersInv(k, closers) && Forward(k, k') && k'.claims == k.claims
    ensures ClosersInv(k', closers)
  {
    forall d | d in closers ensures ProgressOk(k', closers[d]) && ActingOk(k', d, closers[d]) {
      ProgressGoesForward(k, k', closers[d]);
    }
  }

  lemma SelectionsStay(claims: map<OwnerId, ClaimState>, closers: map<CloserId, Closer>, c: CloserId, closer: Closer)
    requires ClaimsSelected(claims, closers)
    requires c in closers ==> closer.selected == closers[c].selected
    ensures ClaimsSelected(claims, closers[c := closer])
  {
    assert forall o :: c in closers && HasSelected(closers[c], o) ==> HasSelected(closer, o);
  }

  lemma ClaimKeepsInv(s: System, c: CloserId)
    requires Inv(s) && Enabled(s, Claim(c))
    ensures Inv(Do(s, Claim(c)))
  {
    var k, closer := s.core, s.closers[c];
    var target := closer.selected[|closer.requests|];
    LookUpOk(k, target);
    match LookUp(k, target)
    case Answered(request) =>
      RequestAdded(k, closer, request);
      OneCloserMoves(k, k, s.closers, c, WithRequest(closer, request));
      SelectionsStay(k.claims, s.closers, c, WithRequest(closer, request));
    case MayClaim(o) =>
      var k', closer' := WithClaim(k, c, o), closer.(acting := Some(o));
      ClaimOk(k, c, o);
      ProgressGoesForward(k, k', closer);
      assert ProgressOk(k', closer');
      OneCloserMoves(k, k', s.closers, c, closer');
      SelectionsStay(k.claims, s.closers, c, closer');
      assert HasSelected(closer', o);
  }

  lemma ActKeepsClosers(k: Core, k': Core, closers: map<CloserId, Closer>, c: CloserId, o: OwnerId)
    requires ClosersInv(k, closers) && Forward(k, k') && c in closers && closers[c].acting == Some(o)
    requires o in k.owners && k'.owners == k.owners && k'.claims == k.claims[o := Ran(c)] && LeftActive(k', o)
    ensures ClosersInv(k', closers[c := WithRequest(closers[c], Pending(k.owners[o].signal))])
  {
    var closer, request := closers[c], Pending(k.owners[o].signal);
    assert ProgressOk(k, closer) && ActingOk(k, c, closer);
    ProgressGoesForward(k, k', closer);
    RequestAdded(k', closer, request);
    OneCloserMoves(k, k', closers, c, WithRequest(closer, request));
  }

  lemma ActKeepsAll(k: Core, closers: map<CloserId, Closer>, c: CloserId, o: OwnerId, ok: bool)
    requires CoreInv(k) && ClosersInv(k, closers) && ClaimsSelected(k.claims, closers)
    requires c in closers && closers[c].acting == Some(o)
    ensures o in k.owners
    ensures var closer := WithRequest(closers[c], Pending(k.owners[o].signal));
            Inv(System(WithAction(k, c, o, ok), closers[c := closer]))
  {
    assert ActingOk(k, c, closers[c]);
    ActionOk(k, c, o, ok);
    ActKeepsClosers(k, WithAction(k, c, o, ok), closers, c, o);
    SelectionsStay(k.claims, closers, c, WithRequest(closers[c], Pending(k.owners[o].signal)));
  }

  lemma ActKeepsInv(s: System, c: CloserId, ok: bool)
    requires Inv(s) && Enabled(s, Act(c, ok))
    ensures Inv(Do(s, Act(c, ok)))
  {
    ActKeepsAll(s.core, s.closers, c, s.closers[c].acting.value, ok);
  }

  lemma WaitKeepsInv(s: System, c: CloserId, i: nat)
    requires Inv(s) && Enabled(s, Wait(c, i))
    ensures Inv(Do(s, Wait(c, i)))
  {
    var k, closer := s.core, s.closers[c];
    var closer' := closer.(results := closer.results[i := OutcomeOf(k, closer.requests[i])]);
    assert ProgressOk(k, closer) && ActingOk(k, c, closer);
    assert ProgressOk(k, closer');
    OneCloserMoves(k, k, s.closers, c, closer');
    SelectionsStay(k.claims, s.closers, c, closer');
  }

  lemma SelectKeepsInv(s: System, c: CloserId, selection: seq<Selected>)
    requires Inv(s) && Enabled(s, Select(c, selection))
    ensures Inv(Do(s, Select(c, selection)))
  {
    var closer := Closer(selection, [], None, map[]);
    assert SelectionKnown(s.core, selection);
    OneCloserMoves(s.core, s.core, s.closers, c, closer);
    SelectionsStay(s.core.claims, s.closers, c, closer);
  }

  lemma StepKeepsInv(s: System, step: Step)
    requires Inv(s) && Enabled(s, step)
    ensures Inv(Do(s, step))
  {
    match step
    case Select(c, selection) => SelectKeepsInv(s, c, selection);
    case Claim(c) => ClaimKeepsInv(s, c);
    case Act(c, ok) => ActKeepsInv(s, c, ok);
    case Report(signal, success) =>
      FinishOk(s.core, signal, success);
      NoCloserMoves(s.core, Do(s, step).core, s.closers);
    case Wait(c, i) => WaitKeepsInv(s, c, i);
    case _ =>
      RegistryOk(s, step);
      NoCloserMoves(s.core, Do(s, step).core, s.closers);
  }

  lemma {:induction false} RunKeepsInv(s: System, run: seq<Step>)
    requires Inv(s) && IsRun(s, run)
    ensures Inv(After(s, run))
    decreases |run|
  {
    if run != [] {
      StepKeepsInv(s, run[0]);
      RunKeepsInv(Do(s, run[0]), run[1..]);
    }
  }

  lemma ReachableInv(s: System)
    requires Reachable(s)
    ensures Inv(s)
  {
    var run :| IsRun(EMPTY, run) && After(EMPTY, run) == s;
    RunKeepsInv(EMPTY, run);
  }
}
