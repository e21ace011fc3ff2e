/**
 * The tracker's objects: close signals, owners compared by identity, and the bulk close
 * that selects, claims and tallies.
 */
module ConnectionTracker {
  import opened Common
  import opened BulkClose
  import opened CloseProtocol
  import Consumers

  class CloseSignal {
    var phase: Phase

    constructor ()
      ensures phase == Active
    {
      phase := Active;
    }

    /** Exactly one claim of a signal ever wins. */
    method TryClaim() returns (won: bool)
      modifies this
      ensures won <==> old(phase) == Active
      ensures phase == if won then Closing else old(phase)
    {
      if phase != Active {
        return false;
      }
      phase := Closing;
      won := true;
    }

    /** The first completion decides; later ones are ignored. */
    method Complete(success: bool)
      modifies this
      ensures phase.Terminal()
      ensures old(phase).Terminal() ==> phase == old(phase)
      ensures !old(phase).Terminal() ==> (phase == Closed <==> success)
    {
      if phase == Closed || phase == Failed {
        return;
      }
      phase := if success then Closed else Failed;
    }
  }

  class ConnectionOwner {
    const signal: CloseSignal
    const action: CloseAction

    constructor (signal: CloseSignal, action: CloseAction)
      ensures this.signal == signal && this.action == action
    {
      this.signal := signal;
      this.action := action;
    }
  }

  datatype Tracked = Tracked(network: string, source: string, owner: ConnectionOwner?)

  datatype SelectedConnection = SelectedConnection(id: string, owner: ConnectionOwner?)

  datatype CloseRequest = Done(outcome: CloseOutcome) | WaitFor(signal: CloseSignal)

  /** Which entries a bulk close is about; `sameSource` stands for the address comparison. */
  datatype Filter = Filter(network: Option<string>, source: Option<string>, sameSource: (string, string) -> bool) {
    predicate Matches(t: Tracked) {
      && (network.None? || t.network == network.value)
      && (source.None? || sameSource(t.source, source.value))
    }
  }

  function Matching(entries: map<string, Tracked>, order: seq<string>, filter: Filter): seq<SelectedConnection>
    requires forall i :: 0 <= i < |order| ==> order[i] in entries
  {
    if order == [] then []
    else
      var id := order[|order| - 1];
      Matching(entries, order[..|order| - 1], filter)
      + (if filter.Matches(entries[id]) then [SelectedConnection(id, entries[id].owner)] else [])
  }

  lemma {:induction false} MatchingGrows(entries: map<string, Tracked>, order: seq<string>, filter: Filter, k: nat)
    requires forall i :: 0 <= i < |order| ==> order[i] in entries
    requires k <= |order|
    ensures |Matching(entries, order[..k], filter)| <= |Matching(entries, order, filter)|
    decreases |order|
  {
    if k < |order| {
      var front := order[..|order| - 1];
      MatchingGrows(entries, front, filter, k);
      assert front[..k] == order[..k];
    } else {
      assert order[..k] == order;
    }
  }

  /** A selected connection is a matching entry, with the owner it was registered with. */
  predicate IsMatch(entries: map<string, Tracked>, filter: Filter, x: SelectedConnection) {
    x.id in entries && filter.Matches(entries[x.id]) && x.owner == entries[x.id].owner
  }

  /** A selection holds exactly the matching entries among those visited, each as it was registered. */
  lemma {:induction false} MatchingIsExact(entries: map<string, Tracked>, order: seq<string>, filter: Filter)
    requires forall i :: 0 <= i < |order| ==> order[i] in entries
    ensures forall i :: 0 <= i < |Matching(entries, order, filter)| ==>
              Matching(entries, order, filter)[i].id in order
              && IsMatch(entries, filter, Matching(entries, order, filter)[i])
    ensures forall id :: id in order && filter.Matches(entries[id]) ==>
              SelectedConnection(id, entries[id].owner) in Matching(entries, order, filter)
  {
    if order != [] {
      var front, id := order[..|order| - 1], order[|order| - 1];
      MatchingIsExact(entries, front, filter);
      assert order == front + [id];
      var found, before := Matching(entries, order, filter), Matching(entries, front, filter);
      assert filter.Matches(entries[id]) ==> IsMatch(entries, filter, SelectedConnection(id, entries[id].owner));
      forall i | 0 <= i < |found| ensures found[i].id in order && IsMatch(entries, filter, found[i]) {
        if i < |before| {
          assert found[i] == before[i];
        }
      }
    }
  }

  function MatchingIds(entries: map<string, Tracked>, filter: Filter): set<string> {
    set id | id in entries && filter.Matches(entries[id])
  }

  /** Every id of the table once, in whatever order the table is visited. */
  ghost predicate Enumerates(order: seq<string>, ids: set<string>) {
    && (forall i, j :: 0 <= i < j < |order| ==> order[i] != order[j])
    && (forall id :: id in order <==> id in ids)
  }

  /** The matching ids among those visited. */
  ghost function MatchedIn(entries: map<string, Tracked>, order: seq<string>, filter: Filter): set<string> {
    set id | id in order && id in entries && filter.Matches(entries[id])
  }

  lemma MatchedSnoc(entries: map<string, Tracked>, front: seq<string>, last: string, filter: Filter)
    requires last !in front && last in entries
    ensures |MatchedIn(entries, front + [last], filter)|
            == |MatchedIn(entries, front, filter)| + (if filter.Matches(entries[last]) then 1 else 0)
  {
    var before, after := MatchedIn(entries, front, filter), MatchedIn(entries, front + [last], filter);
    assert forall id :: id in front + [last] <==> id in front || id == last;
    if filter.Matches(entries[last]) {
      assert after == before + {last};
    } else {
      assert after == before;
    }
  }

  lemma {:induction false} MatchingCounts(entries: map<string, Tracked>, order: seq<string>, filter: Filter)
    requires forall i :: 0 <= i < |order| ==> order[i] in entries
    requires forall i, j :: 0 <= i < j < |order| ==> order[i] != order[j]
    ensures |Matching(entries, order, filter)| == |MatchedIn(entries, order, filter)|
  {
    if order != [] {
      var front, last := order[..|order| - 1], order[|order| - 1];
      MatchingCounts(entries, front, filter);
      MatchedSnoc(entries, front, last, filter);
      assert order == front + [last];
    }
  }

  /** A full visit selects as many connections as match. */
  lemma FullVisitCounts(entries: map<string, Tracked>, order: seq<string>, filter: Filter)
    requires Enumerates(order, entries.Keys)
    ensures |Matching(entries, order, filter)| == |MatchingIds(entries, filter)|
  {
    MatchingCounts(entries, order, filter);
    assert MatchingIds(entries, filter) == MatchedIn(entries, order, filter);
  }

  /** Every matching entry is selected, with the owner it is registered with. */
  lemma SelectedAt(entries: map<string, Tracked>, order: seq<string>, filter: Filter, id: string) returns (i: nat)
    requires Enumerates(order, entries.Keys) && id in MatchingIds(entries, filter)
    ensures i < |Matching(entries, order, filter)|
    ensures Matching(entries, order, filter)[i] == SelectedConnection(id, entries[id].owner)
  {
    MatchingIsExact(entries, order, filter);
    i :| 0 <= i < |Matching(entries, order, filter)|
         && Matching(entries, order, filter)[i] == SelectedConnection(id, entries[id].owner);
  }

  class Tracker {
    var entries: map<string, Tracked>
    var consumers: set<Consumers.Consumer>

    constructor ()
      ensures entries == map[] && consumers == {}
    {
      entries, consumers := map[], {};
    }

    /** What the consumer protocol sees of the tracker, between transitions. */
    function Idle(): Consumers.State
      reads this
    {
      Consumers.State(consumers, entries.Keys, Consumers.Free, map[])
    }

    /** The whole transition, as a thread takes it that nothing interrupts. */
    method Enable(c: Consumers.Consumer)
      modifies this`consumers
      ensures var after := Consumers.TurnedOn(old(Idle()), 0, c);
              Idle() == old(Idle()).(consumers := after.consumers, entries := after.entries)
    {
      consumers := consumers + {c};
    }

    /** The last consumer to leave takes the entries with it; otherwise they stay as they are. */
    method Disable(c: Consumers.Consumer)
      requires !c.Interrupts?
      modifies this
      ensures var after := Consumers.TurnedOff(old(Idle()), 0, c);
              Idle() == old(Idle()).(consumers := after.consumers, entries := after.entries)
      ensures forall id :: id in entries ==> id in old(entries) && entries[id] == old(entries)[id]
    {
      consumers := consumers - {c};
      if consumers == {} {
        entries := map[];
      }
    }

    /** The registered connection is the selected one: same id and the very same owner object. */
    predicate StillRegistered(selected: SelectedConnection)
      reads this
    {
      selected.id in entries && entries[selected.id].owner == selected.owner
    }

    /** Visits connections until more than `maximum` of them match. */
    method VisitMatching(order: seq<string>, filter: Filter, maximum: nat)
      returns (selection: Option<seq<SelectedConnection>>)
      requires forall i :: 0 <= i < |order| ==> order[i] in entries
      ensures selection.None? <==> |Matching(entries, order, filter)| > maximum
      ensures selection.Some? ==> selection.value == Matching(entries, order, filter)
    {
      var selected := [];
      for i := 0 to |order|
        invariant selected == Matching(entries, order[..i], filter) && |selected| <= maximum
      {
        assert order[..i + 1][..i] == order[..i];
        var tracked := entries[order[i]];
        if filter.Matches(tracked) {
          if |selected| == maximum {
            MatchingGrows(entries, order, filter, i + 1);
            return None;
          }
          selected := selected + [SelectedConnection(order[i], tracked.owner)];
        }
      }
      assert order[..|order|] == order;
      return Some(selected);
    }

    /** Refuses exactly when more than `maximum` connections match; otherwise selects exactly those. */
    method SnapshotClose(order: seq<string>, filter: Filter, maximum: nat)
      returns (selection: Option<seq<SelectedConnection>>)
      requires Enumerates(order, entries.Keys)
      ensures selection.None? <==> |MatchingIds(entries, filter)| > maximum
      ensures selection.Some? ==>
                && selection.value == Matching(entries, order, filter)
                && |selection.value| == |MatchingIds(entries, filter)|
    {
      FullVisitCounts(entries, order, filter);
      selection := VisitMatching(order, filter, maximum);
    }

    /**
     * Starts closing one selected connection. `acknowledged` is whether the UDP pool still
     * knows the endpoint; without that the signal fails at once.
     */
    method StartClose(selected: SelectedConnection, acknowledged: bool) returns (request: CloseRequest)
      modifies if selected.owner != null then {selected.owner.signal} else {}
      ensures selected.owner != null && StillRegistered(selected) ==>
                && request == WaitFor(selected.owner.signal)
                && selected.owner.signal.phase != Active
                && selected.owner.signal.phase ==
                   if old(selected.owner.signal.phase) != Active then old(selected.owner.signal.phase)
                   else if selected.owner.action == Udp && !acknowledged then Failed else Closing
      ensures !StillRegistered(selected) ==>
                request == Done(Gone) && (selected.owner != null ==> unchanged(selected.owner.signal))
      ensures selected.owner == null && StillRegistered(selected) ==> request == Done(NotClosable)
    {
      if selected.id !in entries {
        return Done(Gone);
      }
      var current := entries[selected.id].owner;
      if current == null && selected.owner == null {
        return Done(NotClosable);
      }
      if current == null || current != selected.owner {
        return Done(Gone);
      }
      var owner := selected.owner;
      var won := owner.signal.TryClaim();
      if won && owner.action == Udp && !acknowledged {
        owner.signal.Complete(false);
      }
      request := WaitFor(owner.signal);
    }

    /** Starts all closes before anything waits: afterwards no selected registered owner is Active. */
    method StartAll(selected: seq<SelectedConnection>, acknowledged: SelectedConnection -> bool)
      returns (requests: seq<CloseRequest>)
      modifies set i | 0 <= i < |selected| && selected[i].owner != null :: selected[i].owner.signal
      ensures |requests| == |selected|
      ensures forall i :: 0 <= i < |selected| && selected[i].owner != null && StillRegistered(selected[i]) ==>
                selected[i].owner.signal.phase != Active && requests[i] == WaitFor(selected[i].owner.signal)
      ensures forall i :: 0 <= i < |selected| && !StillRegistered(selected[i]) ==> requests[i] == Done(Gone)
      ensures forall i :: 0 <= i < |selected| && selected[i].owner == null && StillRegistered(selected[i]) ==>
                requests[i] == Done(NotClosable)
    {
      requests := [];
      for n := 0 to |selected|
        invariant |requests| == n
        invariant forall i :: 0 <= i < n && selected[i].owner != null && StillRegistered(selected[i]) ==>
          selected[i].owner.signal.phase != Active && requests[i] == WaitFor(selected[i].owner.signal)
        invariant forall i :: 0 <= i < n && !StillRegistered(selected[i]) ==> requests[i] == Done(Gone)
        invariant forall i :: 0 <= i < n && selected[i].owner == null && StillRegistered(selected[i]) ==>
          requests[i] == Done(NotClosable)
      {
        var request := StartClose(selected[n], acknowledged(selected[n]));
        requests := requests + [request];
      }
    }

    ghost function Signals(): set<CloseSignal>
      reads this
    {
      set id | id in entries && entries[id].owner != null :: entries[id].owner.signal
    }

    /**
     * The part of a bulk close before anything waits: select, then start every close. A refused
     * close claims nothing; otherwise no matching connection's owner is left Active.
     */
    method StartMatching(order: seq<string>, filter: Filter, maximum: nat, acknowledged: SelectedConnection -> bool)
      returns (requests: Option<seq<CloseRequest>>)
      requires Enumerates(order, entries.Keys)
      modifies Signals()
      ensures requests.None? <==> |MatchingIds(entries, filter)| > maximum
      ensures requests.None? ==> unchanged(Signals())
      ensures requests.Some? ==>
                && |requests.value| == |MatchingIds(entries, filter)|
                && (forall id :: id in MatchingIds(entries, filter) && entries[id].owner != null ==>
                      && entries[id].owner.signal.phase != Active
                      && WaitFor(entries[id].owner.signal) in requests.value)
                && (forall id :: id in MatchingIds(entries, filter) && entries[id].owner == null ==>
                      Done(NotClosable) in requests.value)
    {
      MatchingIsExact(entries, order, filter);
      var selection := SnapshotClose(order, filter, maximum);
      if selection.None? {
        return None;
      }
      var selected := selection.value;
      assert forall i :: 0 <= i < |selected| ==> StillRegistered(selected[i]);
      assert forall i :: 0 <= i < |selected| && selected[i].owner != null ==> selected[i].owner.signal in Signals();
      var started := StartAll(selected, acknowledged);
      forall id | id in MatchingIds(entries, filter)
        ensures entries[id].owner != null ==>
                  entries[id].owner.signal.phase != Active && WaitFor(entries[id].owner.signal) in started
        ensures entries[id].owner == null ==> Done(NotClosable) in started
      {
        var i := SelectedAt(entries, order, filter, id);
        assert started[i] in started;
      }
      requests := Some(started);
    }

    /** The part of a bulk close after its waits, which return once their signals are terminal. */
    method FinishMatching(requests: seq<CloseRequest>) returns (summary: CloseSummary)
      requires forall i :: 0 <= i < |requests| ==> WaitIsOver(requests[i])
      ensures summary.closed == Count(Answers(requests), WasClosed)
      ensures summary.skipped == Count(Answers(requests), NotClosable)
      ensures summary.failed <==> Count(Answers(requests), CloseFailed) > 0
    {
      var outcomes: seq<CloseOutcome> := [];
      assert requests[..0] == [];
      for n := 0 to |requests|
        invariant outcomes == Answers(requests[..n])
      {
        assert requests[..n + 1][..n] == requests[..n];
        outcomes := outcomes + [Answer(requests[n])];
      }
      assert requests[..|requests|] == requests;
      summary := Tally(outcomes);
    }
  }

  predicate WaitIsOver(request: CloseRequest)
    reads if request.WaitFor? then {request.signal} else {}
  {
    request.WaitFor? ==> request.signal.phase.Terminal()
  }

  function Answer(request: CloseRequest): CloseOutcome
    reads if request.WaitFor? then {request.signal} else {}
  {
    match request
    case Done(outcome) => outcome
    case WaitFor(signal) => if signal.phase == Closed then WasClosed else CloseFailed
  }

  function Answers(requests: seq<CloseRequest>): seq<CloseOutcome>
    reads set i | 0 <= i < |requests| && requests[i].WaitFor? :: requests[i].signal
  {
    if requests == [] then [] else Answers(requests[..|requests| - 1]) + [Answer(requests[|requests| - 1])]
  }
}
