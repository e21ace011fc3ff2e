/**
 * What closers, waiters and owners may rely on in every reachable state of the close
 * protocol, however its steps interleave.
 */
module CloseGuarantees {
  import opened Common
  import opened CloseProtocol

  /** No interleaving runs an owner's close action twice, nor the actions of two owners of one signal. */
  lemma ActionsRunAtMostOnce(s: System, i: nat, j: nat)
    requires Reachable(s) && i < j < |s.core.runs|
    ensures s.core.runs[i] in s.core.owners && s.core.runs[j] in s.core.owners
    ensures s.core.owners[s.core.runs[i]].signal != s.core.owners[s.core.runs[j]].signal
  {
    ReachableInv(s);
    var o, p := s.core.runs[i], s.core.runs[j];
    assert o in s.core.runs && p in s.core.runs;
    assert OwnSignals(s.core.owners, o, p);
  }

  /** The answer of a wait on a signal is its first completion report, a success or not. */
  lemma WaitShowsFirstReport(s: System, c: CloserId, i: nat)
    requires Reachable(s) && c in s.closers && i in s.closers[c].results
    ensures i < |s.closers[c].requests|
    ensures s.closers[c].requests[i].Pending? ==>
              var signal := s.closers[c].requests[i].signal;
              && signal in s.core.finishes && s.core.finishes[signal] != []
              && s.closers[c].results[i] == if s.core.finishes[signal][0] then WasClosed else CloseFailed
    ensures s.closers[c].requests[i].Immediate? ==> s.closers[c].results[i] in {Gone, NotClosable}
  {
    ReachableInv(s);
    assert ProgressOk(s.core, s.closers[c]);
    assert Settled(s.core, s.closers[c].requests[i]);
    assert RequestOk(s.core, s.closers[c].selected[i], s.closers[c].requests[i]);
  }

  /** Any two waiters on one signal get the same outcome, whenever each of them looked. */
  lemma WaitersAgree(s: System, c: CloserId, i: nat, d: CloserId, j: nat)
    requires Reachable(s) && c in s.closers && i in s.closers[c].results && d in s.closers && j in s.closers[d].results
    requires i < |s.closers[c].requests| && j < |s.closers[d].requests|
    requires s.closers[c].requests[i].Pending? && s.closers[d].requests[j] == s.closers[c].requests[i]
    ensures s.closers[c].results[i] == s.closers[d].results[j]
  {
    WaitShowsFirstReport(s, c, i);
    WaitShowsFirstReport(s, d, j);
  }

  /** Closed is answered only for a signal whose first completion report was a success. */
  lemma ClosedMeansAcknowledged(s: System, c: CloserId, i: nat)
    requires Reachable(s) && c in s.closers && i in s.closers[c].results
    requires s.closers[c].results[i] == WasClosed
    ensures i < |s.closers[c].requests| && s.closers[c].requests[i].Pending?
    ensures var signal := s.closers[c].requests[i].signal;
            signal in s.core.finishes && s.core.finishes[signal] != [] && s.core.finishes[signal][0]
  {
    WaitShowsFirstReport(s, c, i);
  }

  lemma SelectionFixedByStep(s: System, step: Step, c: CloserId)
    requires Enabled(s, step) && c in s.closers
    ensures c in Do(s, step).closers && Do(s, step).closers[c].selected == s.closers[c].selected
  {
  }

  lemma OwnersFixedByStep(s: System, step: Step)
    requires Enabled(s, step)
    ensures OwnersKept(s.core.owners, Do(s, step).core.owners)
  {
  }

  /** A run never changes what a closer selected, nor what an owner is. */
  lemma {:induction false} SelectionFixedInRuns(s: System, run: seq<Step>, c: CloserId)
    requires IsRun(s, run) && c in s.closers
    ensures c in After(s, run).closers && After(s, run).closers[c].selected == s.closers[c].selected
    ensures OwnersKept(s.core.owners, After(s, run).core.owners)
    decreases |run|
  {
    if run != [] {
      SelectionFixedByStep(s, run[0], c);
      OwnersFixedByStep(s, run[0]);
      SelectionFixedInRuns(Do(s, run[0]), run[1..], c);
    }
  }

  /**
   * An owner registered after a closer made its selection, under whatever id, is never
   * claimed by that closer, however the run goes on.
   */
  lemma LaterOwnersAreNeverClaimed(s: System, run: seq<Step>, c: CloserId, o: OwnerId)
    requires Reachable(s) && IsRun(s, run) && c in s.closers && o !in s.core.owners
    ensures o in After(s, run).core.claims ==> After(s, run).core.claims[o].closer != c
  {
    ReachableInv(s);
    RunKeepsInv(s, run);
    SelectionFixedInRuns(s, run, c);
    assert ProgressOk(s.core, s.closers[c]);
  }

  ghost predicate SelectedSignal(owners: Owners, selected: seq<Selected>, signal: SignalId) {
    exists i :: 0 <= i < |selected| && HasSignal(owners, selected[i], signal)
  }

  ghost predicate HasSignal(owners: Owners, target: Selected, signal: SignalId) {
    target.owner.Some? && target.owner.value in owners && owners[target.owner.value].signal == signal
  }

  lemma ClaimMovesSelected(s: System, c: CloserId, signal: SignalId)
    requires Enabled(s, Claim(c)) && signal in s.core.phases
    requires OwnersKnown(s.core.owners, s.core.phases.Keys, s.core.entries, s.core.claims.Keys)
    ensures signal in Do(s, Claim(c)).core.phases
    ensures Do(s, Claim(c)).core.phases[signal] != s.core.phases[signal] ==>
              SelectedSignal(s.core.owners, s.closers[c].selected, signal)
  {
    var target := s.closers[c].selected[|s.closers[c].requests|];
    LookUpOk(s.core, target);
    if LookUp(s.core, target).MayClaim? {
      assert HasSignal(s.core.owners, target, s.core.owners[target.owner.value].signal);
    }
  }

  lemma ActMovesSelected(s: System, c: CloserId, ok: bool, signal: SignalId)
    requires Enabled(s, Act(c, ok)) && signal in s.core.phases
    requires ActingOk(s.core, c, s.closers[c]) && s.core.claims.Keys <= s.core.owners.Keys
    ensures signal in Do(s, Act(c, ok)).core.phases
    ensures Do(s, Act(c, ok)).core.phases[signal] != s.core.phases[signal] ==>
              SelectedSignal(s.core.owners, s.closers[c].selected, signal)
  {
    var target := s.closers[c].selected[|s.closers[c].requests|];
    assert HasSignal(s.core.owners, target, s.core.owners[target.owner.value].signal);
  }

  lemma SelectedSignalBefore(before: Owners, after: Owners, selected: seq<Selected>, signal: SignalId)
    requires OwnersKept(before, after) && SelectedSignal(after, selected, signal)
    requires forall i :: 0 <= i < |selected| && selected[i].owner.Some? ==> selected[i].owner.value in before
    ensures SelectedSignal(before, selected, signal)
  {
    var i :| 0 <= i < |selected| && HasSignal(after, selected[i], signal);
    assert HasSignal(before, selected[i], signal);
  }

  /**
   * No claim or action of a closer, at any later time, moves the signal of an owner that was
   * registered after the selection, unless an owner it did select has that very signal.
   */
  lemma LaterOwnersAreLeftAlone(s: System, run: seq<Step>, step: Step, c: CloserId, o: OwnerId)
    requires Reachable(s) && IsRun(s, run) && c in s.closers && o !in s.core.owners
    requires o in After(s, run).core.owners && Enabled(After(s, run), step)
    requires step == Claim(c) || (step.Act? && step.c == c)
    ensures var k, signal := After(s, run).core, After(s, run).core.owners[o].signal;
            && signal in k.phases && signal in Do(After(s, run), step).core.phases
            && (Do(After(s, run), step).core.phases[signal] != k.phases[signal] ==>
                  SelectedSignal(s.core.owners, s.closers[c].selected, signal))
  {
    var t := After(s, run);
    var signal := t.core.owners[o].signal;
    ReachableInv(s);
    RunKeepsInv(s, run);
    SelectionFixedInRuns(s, run, c);
    assert ProgressOk(s.core, s.closers[c]) && ActingOk(t.core, c, t.closers[c]);
    if step.Claim? {
      ClaimMovesSelected(t, c, signal);
    } else {
      ActMovesSelected(t, c, step.ok, signal);
    }
    if SelectedSignal(t.core.owners, t.closers[c].selected, signal) {
      SelectedSignalBefore(s.core.owners, t.core.owners, s.closers[c].selected, signal);
    }
  }

  /** Every owner that was ever claimed had been selected by its claimant. */
  lemma ClaimedOwnersWereSelected(s: System, o: OwnerId)
    requires Reachable(s) && o in s.core.claims
    ensures s.core.claims[o].closer in s.closers && HasSelected(s.closers[s.core.claims[o].closer], o)
    ensures o in s.core.owners && s.core.owners[o].signal in s.core.phases
    ensures !s.core.phases[s.core.owners[o].signal].Active?
  {
    ReachableInv(s);
    assert LeftActive(s.core, o);
  }

  /** All waits of a bulk close are over. */
  predicate AllAnswered(closer: Closer) {
    closer.Waiting() && forall i :: 0 <= i < |closer.selected| ==> i in closer.results
  }

  /** The connection's selected owner was asked to close, and its signal's first report was this. */
  ghost predicate FirstReportWas(k: Core, target: Selected, success: bool) {
    && target.owner.Some? && target.owner.value in k.owners
    && var signal := k.owners[target.owner.value].signal;
       signal in k.finishes && k.finishes[signal] != [] && k.finishes[signal][0] == success
  }

  /** The id no longer stands for what was selected. */
  ghost predicate Replaced(k: Core, target: Selected) {
    target.id !in k.entries || k.entries[target.id] != target.owner
  }

  /**
   * What each outcome of a bulk close says, in any interleaving: closed and failed are the
   * first report of the selected owner's signal, not closable means there was no owner to ask,
   * and a selected owner is gone only if its id does not stand for it any more.
   */
  lemma OutcomeMeans(s: System, c: CloserId, i: nat)
    requires Reachable(s) && c in s.closers && AllAnswered(s.closers[c]) && i < |s.closers[c].selected|
    ensures var target, outcome := s.closers[c].selected[i], s.closers[c].results[i];
            && (outcome == WasClosed ==> FirstReportWas(s.core, target, true))
            && (outcome == CloseFailed ==> FirstReportWas(s.core, target, false))
            && (outcome == NotClosable ==> target.owner.None?)
            && (outcome == Gone && target.owner.Some? ==> Replaced(s.core, target))
            && (target.owner.Some? && !Replaced(s.core, target) ==> outcome in {WasClosed, CloseFailed})
  {
    WaitShowsFirstReport(s, c, i);
    ReachableInv(s);
    assert ProgressOk(s.core, s.closers[c]);
    assert RequestOk(s.core, s.closers[c].selected[i], s.closers[c].requests[i]);
  }

  /** When a bulk close starts to wait, no selected owner that is still registered is Active. */
  lemma AllClaimedBeforeFirstWait(s: System, c: CloserId, i: nat)
    requires Reachable(s) && c in s.closers && s.closers[c].Waiting() && i < |s.closers[c].selected|
    requires s.closers[c].selected[i].owner.Some?
    requires var target := s.closers[c].selected[i];
             target.id in s.core.entries && s.core.entries[target.id] == target.owner
    ensures LeftActive(s.core, s.closers[c].selected[i].owner.value)
  {
    ReachableInv(s);
    assert ProgressOk(s.core, s.closers[c]);
    assert RequestOk(s.core, s.closers[c].selected[i], s.closers[c].requests[i]);
  }
}
