/**
 * The shared connection samplers: one broadcast channel and one task per interval.
 *
 * Subscribing takes the channel in the table or makes a new one; a task that sees no
 * receivers tries to take its channel out of the table and retires; its guard removes
 * the entry again when the task goes away. These steps interleave freely, tasks may be
 * aborted, and the table itself may be dropped.
 */
module Samplers {
  import opened Common

  type Interval = nat
  type ChannelId = nat
  type ReceiverId = nat

  datatype Pc =
    | Inserted   // in the table; its task is about to be spawned
    | Spawned    // spawned, not polled yet: the guard does not exist
    | Running
    | SawIdle    // read a receiver count of zero after a tick
    | Retiring   // left the loop or was aborted; the guard is about to drop
    | Finished
  {
    predicate Sampling() { !Retiring? && !Finished? }
  }

  datatype Channel = Channel(interval: Interval, pc: Pc)

  datatype System = System(
    alive: bool,
    table: map<Interval, ChannelId>,
    channels: map<ChannelId, Channel>,
    receivers: map<ReceiverId, ChannelId>,
    aborted: set<ChannelId>,
    reclaimed: set<ChannelId>)

  const FRESH := System(true, map[], map[], map[], {}, {})

  datatype Step =
    | Subscribe(r: ReceiverId, interval: Interval, newCh: ChannelId)
    | Spawn(ch: ChannelId)
    | FirstPoll(ch: ChannelId)
    | Unsubscribe(r: ReceiverId)
    | Tick(ch: ChannelId)
    | TryReclaim(ch: ChannelId)
    | DropGuard(ch: ChannelId)
    | Abort(ch: ChannelId)
    | DropTable

  predicate Idle(receivers: map<ReceiverId, ChannelId>, ch: ChannelId) {
    forall r :: r in receivers ==> receivers[r] != ch
  }

  predicate Enabled(s: System, step: Step) {
    match step
    case Subscribe(r, _, newCh) => s.alive && r !in s.receivers && newCh !in s.channels
    case Spawn(ch) => ch in s.channels && s.channels[ch].pc.Inserted?
    case FirstPoll(ch) => ch in s.channels && s.channels[ch].pc.Spawned?
    case Unsubscribe(r) => r in s.receivers
    case Tick(ch) => ch in s.channels && s.channels[ch].pc.Running?
    case TryReclaim(ch) => ch in s.channels && s.channels[ch].pc.SawIdle?
    case DropGuard(ch) => ch in s.channels && s.channels[ch].pc.Retiring?
    case Abort(ch) =>
      ch in s.channels && (s.channels[ch].pc.Spawned? || s.channels[ch].pc.Running? || s.channels[ch].pc.SawIdle?)
    case DropTable => s.alive
  }

  function At(s: System, ch: ChannelId, pc: Pc): System
    requires ch in s.channels
  {
    s.(channels := s.channels[ch := s.channels[ch].(pc := pc)])
  }

  predicate Current(s: System, ch: ChannelId) {
    ch in s.channels && s.channels[ch].interval in s.table && s.table[s.channels[ch].interval] == ch
  }

  function Do(s: System, step: Step): System
    requires Enabled(s, step)
  {
    match step
    case Subscribe(r, interval, newCh) =>
      if interval in s.table then s.(receivers := s.receivers[r := s.table[interval]])
      else s.(table := s.table[interval := newCh],
              channels := s.channels[newCh := Channel(interval, Inserted)],
              receivers := s.receivers[r := newCh])
    case Spawn(ch) => At(s, ch, Spawned)
    case FirstPoll(ch) => At(s, ch, Running)
    case Unsubscribe(r) => s.(receivers := s.receivers - {r})
    case Tick(ch) => if Idle(s.receivers, ch) then At(s, ch, SawIdle) else s
    case TryReclaim(ch) =>
      if !s.alive then At(s, ch, Retiring)
      else if Current(s, ch) && Idle(s.receivers, ch) then
        At(s, ch, Retiring).(table := s.table - {s.channels[ch].interval}, reclaimed := s.reclaimed + {ch})
      else At(s, ch, Running)
    case DropGuard(ch) =>
      At(s, ch, Finished).(table := if s.alive && Current(s, ch) then s.table - {s.channels[ch].interval} else s.table)
    case Abort(ch) =>
      At(s, ch, if s.channels[ch].pc.Spawned? then Finished else Retiring).(aborted := s.aborted + {ch})
    case DropTable => s.(alive := false, table := map[])
  }

  ghost predicate IsRun(s: System, run: seq<Step>)
    decreases |run|
  {
    run == [] || (Enabled(s, run[0]) && IsRun(Do(s, run[0]), run[1..]))
  }

  ghost function After(s: System, run: seq<Step>): System
    requires IsRun(s, run)
    decreases |run|
  {
    if run == [] then s else After(Do(s, run[0]), run[1..])
  }

  ghost predicate Reachable(s: System) {
    exists run :: IsRun(FRESH, run) && After(FRESH, run) == s
  }

  // ---- Invariant -------------------------------------------------------------------

  ghost predicate TableOk(s: System) {
    && (forall i :: i in s.table ==> s.table[i] in s.channels && s.channels[s.table[i]].interval == i)
    && (!s.alive ==> s.table == map[])
  }

  /** A sampling task serves the table's channel; one that stopped without an abort is out of it. */
  ghost predicate TasksOk(s: System) {
    forall ch :: ch in s.channels && ch !in s.aborted && s.alive ==>
      (s.channels[ch].pc.Sampling() <==> Current(s, ch))
  }

  ghost predicate ReceiversOk(s: System) {
    forall r :: r in s.receivers ==>
      && s.receivers[r] in s.channels
      && s.receivers[r] !in s.reclaimed
      && (s.receivers[r] in s.aborted || s.channels[s.receivers[r]].pc.Sampling() || !s.alive)
  }

  ghost predicate ReclaimedOk(s: System) {
    && (forall ch :: ch in s.aborted ==> ch in s.channels && !s.channels[ch].pc.Sampling())
    && forall ch :: ch in s.reclaimed ==>
         ch in s.channels && !s.channels[ch].pc.Sampling() && ch !in s.aborted && !Current(s, ch)
  }

  ghost predicate Inv(s: System) {
    TableOk(s) && TasksOk(s) && ReceiversOk(s) && ReclaimedOk(s)
  }

  lemma SubscribeKeepsInv(s: System, r: ReceiverId, interval: Interval, newCh: ChannelId)
    requires Inv(s) && Enabled(s, Subscribe(r, interval, newCh))
    ensures Inv(Do(s, Subscribe(r, interval, newCh)))
  {
    var s' := Do(s, Subscribe(r, interval, newCh));
    if interval in s.table {
      var ch := s.table[interval];
      assert Current(s, ch);
    } else {
      assert forall ch :: ch in s.channels ==> (Current(s', ch) <==> Current(s, ch));
      assert Current(s', newCh);
    }
  }

  lemma TryReclaimKeepsInv(s: System, ch: ChannelId)
    requires Inv(s) && Enabled(s, TryReclaim(ch))
    ensures Inv(Do(s, TryReclaim(ch)))
  {
    var s' := Do(s, TryReclaim(ch));
    assert forall d :: d in s.channels && d != ch ==> (Current(s', d) <==> Current(s, d));
  }

  lemma DropGuardKeepsInv(s: System, ch: ChannelId)
    requires Inv(s) && Enabled(s, DropGuard(ch))
    ensures Inv(Do(s, DropGuard(ch)))
  {
    var s' := Do(s, DropGuard(ch));
    assert forall d :: d in s.channels && d != ch ==> (Current(s', d) <==> Current(s, d));
  }

  lemma AbortKeepsInv(s: System, ch: ChannelId)
    requires Inv(s) && Enabled(s, Abort(ch))
    ensures Inv(Do(s, Abort(ch)))
  {
    var s' := Do(s, Abort(ch));
    assert forall d :: d in s.channels ==> (Current(s', d) <==> Current(s, d));
  }

  /** Moving a task between two sampling states changes nothing the invariant speaks about. */
  lemma SamplingMoveKeepsInv(s: System, ch: ChannelId, pc: Pc)
    requires Inv(s) && ch in s.channels && s.channels[ch].pc.Sampling() && pc.Sampling()
    ensures Inv(At(s, ch, pc))
  {
    var s' := At(s, ch, pc);
    assert forall d :: d in s.channels ==> (Current(s', d) <==> Current(s, d));
  }

  lemma StepKeepsInv(s: System, step: Step)
    requires Inv(s) && Enabled(s, step)
    ensures Inv(Do(s, step))
  {
    match step
    case Subscribe(r, interval, newCh) => SubscribeKeepsInv(s, r, interval, newCh);
    case Spawn(ch) => SamplingMoveKeepsInv(s, ch, Spawned);
    case FirstPoll(ch) => SamplingMoveKeepsInv(s, ch, Running);
    case Unsubscribe(r) =>
      var s' := Do(s, step);
      assert forall d :: Current(s', d) <==> Current(s, d);
    case Tick(ch) => SamplingMoveKeepsInv(s, ch, SawIdle);
    case TryReclaim(ch) => TryReclaimKeepsInv(s, ch);
    case DropGuard(ch) => DropGuardKeepsInv(s, ch);
    case Abort(ch) => AbortKeepsInv(s, ch);
    case DropTable =>
  }

  lemma {:induction false} RunKeepsInv(s: System, run: seq<Step>)
    requires Inv(s) && IsRun(s, run)
    ensures Inv(After(s, run))
    decreases |run|
  {
    if run != [] {
      StepKeepsInv(s, run[0]);
      RunKeepsInv(Do(s, run[0]), run[1..]);
    }
  }

  lemma ReachableInv(s: System)
    requires Reachable(s)
    ensures Inv(s)
  {
    var run :| IsRun(FRESH, run) && After(FRESH, run) == s;
    RunKeepsInv(FRESH, run);
  }

  // ---- Statements about every reachable state ------------------------------------------

  /**
   * While the table lives, a receiver listens to the channel the table holds for its interval,
   * with that channel's sampler at work, exactly unless that sampler was aborted.
   */
  lemma LiveReceiversAreServed(s: System, r: ReceiverId)
    requires Reachable(s) && s.alive && r in s.receivers
    ensures Current(s, s.receivers[r]) && s.channels[s.receivers[r]].pc.Sampling()
            <==> s.receivers[r] !in s.aborted
  {
    ReachableInv(s);
  }

  /** Two samplers for one interval never run at the same time. */
  lemma OneSamplerPerInterval(s: System, c: ChannelId, d: ChannelId)
    requires Reachable(s) && s.alive && c in s.channels && d in s.channels
    requires c !in s.aborted && d !in s.aborted
    requires s.channels[c].pc.Sampling() && s.channels[d].pc.Sampling()
    requires s.channels[c].interval == s.channels[d].interval
    ensures c == d
  {
    ReachableInv(s);
    assert Current(s, c) && Current(s, d);
  }

  lemma {:induction false} ReclaimedStaysReclaimed(s: System, run: seq<Step>, ch: ChannelId)
    requires IsRun(s, run) && ch in s.reclaimed
    ensures ch in After(s, run).reclaimed
    decreases |run|
  {
    if run != [] {
      ReclaimedStaysReclaimed(Do(s, run[0]), run[1..], ch);
    }
  }

  /** A channel that was reclaimed never has a receiver again, however the run continues. */
  lemma ReclaimedChannelsStayEmpty(s: System, run: seq<Step>, ch: ChannelId)
    requires Reachable(s) && IsRun(s, run) && ch in s.reclaimed
    ensures Idle(After(s, run).receivers, ch)
  {
    ReachableInv(s);
    RunKeepsInv(s, run);
    ReclaimedStaysReclaimed(s, run, ch);
  }

  /** A retiring guard leaves every other channel's entry alone; its own is already gone unless it was aborted. */
  lemma GuardSparesSuccessors(s: System, ch: ChannelId, i: Interval)
    requires Reachable(s) && Enabled(s, DropGuard(ch)) && i in s.table
    ensures s.table[i] != ch ==> i in Do(s, DropGuard(ch)).table && Do(s, DropGuard(ch)).table[i] == s.table[i]
    ensures ch !in s.aborted ==> Do(s, DropGuard(ch)).table == s.table
  {
    ReachableInv(s);
  }

  // ---- The objects ------------------------------------------------------------------------

  /** A broadcast sender; cloned senders of one channel are the same object here. */
  class Sender {
    const channel: ChannelId
    var receiverCount: nat

    constructor (channel: ChannelId)
      ensures this.channel == channel && receiverCount == 1
    {
      this.channel := channel;
      receiverCount := 1;
    }
  }

  ghost function Listeners(receivers: map<ReceiverId, ChannelId>, ch: ChannelId): set<ReceiverId> {
    set r | r in receivers && receivers[r] == ch
  }

  lemma NoListenersIffIdle(receivers: map<ReceiverId, ChannelId>, ch: ChannelId)
    ensures |Listeners(receivers, ch)| == 0 <==> Idle(receivers, ch)
  {
    if Idle(receivers, ch) {
      assert Listeners(receivers, ch) == {};
    } else {
      var r :| r in receivers && receivers[r] == ch;
      assert r in Listeners(receivers, ch);
    }
  }

  lemma OneMoreListener(receivers: map<ReceiverId, ChannelId>, r: ReceiverId, ch: ChannelId, other: ChannelId)
    requires r !in receivers
    ensures |Listeners(receivers[r := ch], other)| == |Listeners(receivers, other)| + (if other == ch then 1 else 0)
  {
    var before, after := Listeners(receivers, other), Listeners(receivers[r := ch], other);
    assert after == if other == ch then before + {r} else before;
  }

  /** The table of senders. Each method takes the step of the protocol it stands for. */
  class StreamSamplers {
    var connections: map<Interval, Sender>

    /** The senders in the table are the channels in it, with as many receivers as listen. */
    ghost predicate Represents(s: System)
      reads this, connections.Values
    {
      && s.alive && connections.Keys == s.table.Keys
      && forall i :: i in connections ==>
           && connections[i].channel == s.table[i]
           && connections[i].receiverCount == |Listeners(s.receivers, s.table[i])|
    }

    /** This sender is the one of its channel. */
    ghost predicate Identifies(tx: Sender)
      reads this
    {
      forall i :: i in connections && connections[i].channel == tx.channel ==> connections[i] == tx
    }

    constructor ()
      ensures connections == map[] && Represents(FRESH)
    {
      connections := map[];
    }

    /** Joins the channel in the table, or creates it together with its first receiver. */
    method Join(interval: Interval, newCh: ChannelId, ghost s: System, ghost r: ReceiverId)
      returns (tx: Sender, created: bool)
      requires Reachable(s) && Represents(s) && Enabled(s, Subscribe(r, interval, newCh))
      modifies this, connections.Values
      ensures Represents(Do(s, Subscribe(r, interval, newCh)))
      ensures interval in connections && connections[interval] == tx
      ensures created <==> interval !in s.table
      ensures created ==> fresh(tx) && tx.channel == newCh
    {
      ReachableInv(s);
      ghost var joined := if interval in s.table then s.table[interval] else newCh;
      forall i | i in s.table
        ensures |Listeners(s.receivers[r := joined], s.table[i])|
                == |Listeners(s.receivers, s.table[i])| + (if s.table[i] == joined then 1 else 0)
      {
        OneMoreListener(s.receivers, r, joined, s.table[i]);
      }
      if interval in connections {
        tx := connections[interval];
        tx.receiverCount := tx.receiverCount + 1;
        created := false;
      } else {
        OneMoreListener(s.receivers, r, newCh, newCh);
        NoListenersIffIdle(s.receivers, newCh);
        tx := new Sender(newCh);
        connections := connections[interval := tx];
        created := true;
      }
    }

    /** The sampler's own attempt: removes only its channel, and only while nobody listens. */
    method Reclaim(interval: Interval, tx: Sender, ghost s: System) returns (removed: bool)
      requires Represents(s) && Identifies(tx) && Enabled(s, TryReclaim(tx.channel))
      requires s.channels[tx.channel].interval == interval
      modifies this
      ensures Represents(Do(s, TryReclaim(tx.channel)))
      ensures removed <==> Do(s, TryReclaim(tx.channel)).channels[tx.channel].pc.Retiring?
    {
      NoListenersIffIdle(s.receivers, tx.channel);
      removed := interval in connections && connections[interval] == tx && tx.receiverCount == 0;
      if removed {
        connections := connections - {interval};
      }
    }

    /** The guard: removes the entry only if it is still this task's channel. */
    method DropTaskGuard(interval: Interval, tx: Sender, ghost s: System)
      requires Represents(s) && Identifies(tx) && Enabled(s, DropGuard(tx.channel))
      requires s.channels[tx.channel].interval == interval
      modifies this
      ensures Represents(Do(s, DropGuard(tx.channel)))
      ensures interval in connections ==> connections[interval] != tx
      ensures forall i :: i in old(connections) && old(connections)[i] != tx ==>
                i in connections && connections[i] == old(connections)[i]
    {
      if interval in connections && connections[interval] == tx {
        connections := connections - {interval};
      }
    }
  }
}
