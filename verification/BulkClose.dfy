/**
 * What the summary of a bulk close counts, in any interleaving of closers, owners and
 * registrations.
 */
module BulkClose {
  import opened Common
  import opened CloseGuarantees
  import opened CloseProtocol

  datatype CloseSummary = CloseSummary(closed: nat, skipped: nat, failed: bool)

  function Count(outcomes: seq<CloseOutcome>, what: CloseOutcome): nat {
    if outcomes == [] then 0
    else Count(outcomes[..|outcomes| - 1], what) + (if outcomes[|outcomes| - 1] == what then 1 else 0)
  }

  /** The positions of an outcome. */
  function At(outcomes: seq<CloseOutcome>, what: CloseOutcome): set<nat> {
    set i: nat | i < |outcomes| && outcomes[i] == what
  }

  lemma AtSnoc(front: seq<CloseOutcome>, last: CloseOutcome, what: CloseOutcome)
    ensures At(front + [last], what) == At(front, what) + (if last == what then {|front|} else {})
    ensures |At(front + [last], what)| == |At(front, what)| + (if last == what then 1 else 0)
  {
    var all := front + [last];
    assert forall i: nat :: i < |all| ==> all[i] == if i < |front| then front[i] else last;
  }

  lemma {:induction false} CountIsSize(outcomes: seq<CloseOutcome>, what: CloseOutcome)
    ensures Count(outcomes, what) == |At(outcomes, what)|
  {
    if outcomes != [] {
      var front, last := outcomes[..|outcomes| - 1], outcomes[|outcomes| - 1];
      CountIsSize(front, what);
      AtSnoc(front, last, what);
      assert outcomes == front + [last];
    }
  }

  /** Every outcome is one of the four. */
  lemma {:induction false} OutcomesAddUp(outcomes: seq<CloseOutcome>)
    ensures Count(outcomes, WasClosed) + Count(outcomes, NotClosable) + Count(outcomes, Gone)
            + Count(outcomes, CloseFailed) == |outcomes|
  {
    if outcomes != [] {
      OutcomesAddUp(outcomes[..|outcomes| - 1]);
    }
  }

  method Tally(outcomes: seq<CloseOutcome>) returns (summary: CloseSummary)
    ensures summary.closed == Count(outcomes, WasClosed)
    ensures summary.skipped == Count(outcomes, NotClosable)
    ensures summary.failed <==> Count(outcomes, CloseFailed) > 0
    ensures !summary.failed ==> summary.closed + summary.skipped + Count(outcomes, Gone) == |outcomes|
  {
    summary := CloseSummary(0, 0, false);
    for i := 0 to |outcomes|
      invariant summary.closed == Count(outcomes[..i], WasClosed)
      invariant summary.skipped == Count(outcomes[..i], NotClosable)
      invariant summary.failed <==> Count(outcomes[..i], CloseFailed) > 0
    {
      assert outcomes[..i + 1][..i] == outcomes[..i];
      match outcomes[i] {
        case WasClosed => summary := summary.(closed := summary.closed + 1);
        case NotClosable => summary := summary.(skipped := summary.skipped + 1);
        case Gone =>
        case CloseFailed => summary := summary.(failed := true);
      }
    }
    assert outcomes[..|outcomes|] == outcomes;
    OutcomesAddUp(outcomes);
  }

  // ---- The bulk close of the interleaved protocol --------------------------------------------

  ghost function Outcomes(closer: Closer): seq<CloseOutcome>
    requires AllAnswered(closer)
  {
    seq(|closer.selected|, i requires 0 <= i < |closer.selected| => closer.results[i])
  }

  /** The selected connections whose owner was asked to close. */
  ghost function Asked(closer: Closer): set<nat>
    requires closer.Waiting()
  {
    set i: nat | i < |closer.selected| && closer.requests[i].Pending?
  }

  /** Those among them whose signal's first report was a success, or a failure. */
  ghost function Reported(k: Core, closer: Closer, success: bool): set<nat>
    requires closer.Waiting()
  {
    set i: nat | i < |closer.selected| && closer.requests[i].Pending?
                 && FirstReportWas(k, closer.selected[i], success)
  }

  lemma ClosedIffReported(s: System, c: CloserId, i: nat)
    requires Reachable(s) && c in s.closers && AllAnswered(s.closers[c]) && i < |s.closers[c].selected|
    ensures var closer := s.closers[c];
            && (closer.results[i] == WasClosed <==>
                  closer.requests[i].Pending? && FirstReportWas(s.core, closer.selected[i], true))
            && (closer.results[i] == CloseFailed <==>
                  closer.requests[i].Pending? && FirstReportWas(s.core, closer.selected[i], false))
  {
    WaitShowsFirstReport(s, c, i);
    OutcomeMeans(s, c, i);
  }

  /**
   * When a bulk close is over, its closed count is the number of asked owners whose signal was
   * first reported a success, its failures are the asked ones first reported otherwise, the rest
   * were not asked, and the four counts add up to the connections selected.
   */
  lemma BulkCloseAccounts(s: System, c: CloserId)
    requires Reachable(s) && c in s.closers && AllAnswered(s.closers[c])
    ensures var closer, outcomes := s.closers[c], Outcomes(s.closers[c]);
            && Count(outcomes, WasClosed) == |Reported(s.core, closer, true)|
            && Count(outcomes, CloseFailed) == |Reported(s.core, closer, false)|
            && Reported(s.core, closer, true) + Reported(s.core, closer, false) == Asked(closer)
            && Reported(s.core, closer, true) !! Reported(s.core, closer, false)
            && Count(outcomes, NotClosable) + Count(outcomes, Gone) == |closer.selected| - |Asked(closer)|
  {
    var closer, outcomes := s.closers[c], Outcomes(s.closers[c]);
    forall i: nat | i < |closer.selected|
      ensures outcomes[i] == WasClosed <==> i in Reported(s.core, closer, true)
      ensures outcomes[i] == CloseFailed <==> i in Reported(s.core, closer, false)
      ensures outcomes[i] in {WasClosed, CloseFailed} <==> i in Asked(closer)
    {
      ClosedIffReported(s, c, i);
      WaitShowsFirstReport(s, c, i);
    }
    assert At(outcomes, WasClosed) == Reported(s.core, closer, true);
    assert At(outcomes, CloseFailed) == Reported(s.core, closer, false);
    CountIsSize(outcomes, WasClosed);
    CountIsSize(outcomes, CloseFailed);
    OutcomesAddUp(outcomes);
    assert Asked(closer) == At(outcomes, WasClosed) + At(outcomes, CloseFailed);
  }

  /** The connections that were not asked: without an owner, or their id stands for something else. */
  lemma NotAskedMeans(s: System, c: CloserId, i: nat)
    requires Reachable(s) && c in s.closers && AllAnswered(s.closers[c]) && i < |s.closers[c].selected|
    requires i !in Asked(s.closers[c])
    ensures s.closers[c].selected[i].owner.None? || Replaced(s.core, s.closers[c].selected[i])
    ensures s.closers[c].selected[i].owner.Some? ==> s.closers[c].results[i] == Gone
  {
    WaitShowsFirstReport(s, c, i);
    OutcomeMeans(s, c, i);
  }
}
