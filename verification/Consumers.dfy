/**
 * Who needs the connection table. Turning the last consumer off empties the table, and a
 * transition lock keeps that from overtaking a consumer that is being turned on.
 */
module Consumers {
  type ConnId = string
  type Tid = nat

  datatype Consumer = Api | Interrupts | Native

  /** What a thread is doing; from the bit change to the end it holds the transition lock. */
  datatype Pc =
    | Elsewhere
    | Enabling(c: Consumer)
    | Enabled
    | Disabling(c: Consumer)
    | Wiping

  /** `entries` are the tracked connections; registering does not take the lock. */
  datatype State = State(consumers: set<Consumer>, entries: set<ConnId>, lock: Lock, pcs: map<Tid, Pc>)

  datatype Lock = Free | HeldBy(t: Tid)

  datatype Step =
    | LockToEnable(t: Tid, c: Consumer)
    | SetBit(t: Tid)
    | LockToDisable(t: Tid, c: Consumer)
    | ClearBit(t: Tid)
    | Wipe(t: Tid, shard: set<ConnId>)   // the table is cleared piece by piece
    | Unlock(t: Tid)
    | Register(id: ConnId)
    | Remove(id: ConnId)

  const NOBODY := State({}, {}, Free, map[])

  function PcOf(s: State, t: Tid): Pc { if t in s.pcs then s.pcs[t] else Elsewhere }

  /** The interrupt consumer is never turned off. */
  predicate CanStep(s: State, step: Step) {
    match step
    case LockToEnable(t, _) => s.lock.Free? && PcOf(s, t).Elsewhere?
    case SetBit(t) => PcOf(s, t).Enabling?
    case LockToDisable(t, c) => s.lock.Free? && PcOf(s, t).Elsewhere? && !c.Interrupts?
    case ClearBit(t) => PcOf(s, t).Disabling?
    case Wipe(t, _) => PcOf(s, t).Wiping?
    case Unlock(t) => PcOf(s, t).Enabled? || PcOf(s, t).Wiping?
    case Register(_) => true
    case Remove(_) => true
  }

  function Goto(s: State, t: Tid, pc: Pc, lock: Lock): State { s.(pcs := s.pcs[t := pc], lock := lock) }

  function Do(s: State, step: Step): State
    requires CanStep(s, step)
  {
    match step
    case LockToEnable(t, c) => Goto(s, t, Enabling(c), HeldBy(t))
    case SetBit(t) => Goto(s, t, Enabled, s.lock).(consumers := s.consumers + {s.pcs[t].c})
    case LockToDisable(t, c) => Goto(s, t, Disabling(c), HeldBy(t))
    case ClearBit(t) =>
      var left := s.consumers - {s.pcs[t].c};
      Goto(s, t, if left == {} then Wiping else Enabled, s.lock).(consumers := left)
    case Wipe(t, shard) => s.(entries := s.entries - shard)
    case Unlock(t) => Goto(s, t, Elsewhere, Free)
    case Register(id) => s.(entries := s.entries + {id})
    case Remove(id) => s.(entries := s.entries - {id})
  }

  ghost predicate IsRun(s: State, run: seq<Step>)
    decreases |run|
  {
    run == [] || (CanStep(s, run[0]) && IsRun(Do(s, run[0]), run[1..]))
  }

  ghost function After(s: State, run: seq<Step>): State
    requires IsRun(s, run)
    decreases |run|
  {
    if run == [] then s else After(Do(s, run[0]), run[1..])
  }

  ghost predicate Reachable(s: State) {
    exists run :: IsRun(NOBODY, run) && After(NOBODY, run) == s
  }

  /** A thread inside a transition holds the lock; while one wipes, nobody is on. */
  ghost predicate Inv(s: State) {
    && (forall t :: t in s.pcs && !s.pcs[t].Elsewhere? ==> s.lock == HeldBy(t))
    && (forall t :: t in s.pcs && s.pcs[t].Wiping? ==> s.consumers == {})
  }

  lemma StepKeepsInv(s: State, step: Step)
    requires Inv(s) && CanStep(s, step)
    ensures Inv(Do(s, step))
  {
  }

  lemma {:induction false} RunKeepsInv(s: State, run: seq<Step>)
    requires Inv(s) && IsRun(s, run)
    ensures Inv(After(s, run))
    decreases |run|
  {
    if run != [] {
      StepKeepsInv(s, run[0]);
      RunKeepsInv(Do(s, run[0]), run[1..]);
    }
  }

  /** The table loses entries to a wipe only while no consumer is on. */
  lemma WipesOnlyWhenNobodyIsOn(s: State, step: Step)
    requires Reachable(s) && CanStep(s, step) && step.Wipe?
    ensures s.consumers == {}
  {
    var run :| IsRun(NOBODY, run) && After(NOBODY, run) == s;
    RunKeepsInv(NOBODY, run);
  }

  /** At the start and after every step of the run, this consumer is on. */
  ghost predicate StaysOn(s: State, run: seq<Step>, c: Consumer)
    requires IsRun(s, run)
    decreases |run|
  {
    c in s.consumers && (run == [] || StaysOn(Do(s, run[0]), run[1..], c))
  }

  lemma {:induction false} TrackedStays(s: State, run: seq<Step>, c: Consumer, id: ConnId)
    requires Inv(s) && IsRun(s, run) && StaysOn(s, run, c) && id in s.entries
    requires Remove(id) !in run
    ensures id in After(s, run).entries
    decreases |run|
  {
    if run != [] {
      StepKeepsInv(s, run[0]);
      assert run[0] in run;
      assert forall step :: step in run[1..] ==> step in run;
      TrackedStays(Do(s, run[0]), run[1..], c, id);
    }
  }

  /**
   * A connection registered while a consumer is on stays until it is removed, as long as
   * that consumer stays on: no earlier shutdown of another consumer can overtake it.
   */
  lemma RegisteredStaysWhileOn(s: State, run: seq<Step>, c: Consumer, id: ConnId)
    requires Reachable(s) && IsRun(Do(s, Register(id)), run) && StaysOn(Do(s, Register(id)), run, c)
    requires Remove(id) !in run
    ensures id in After(Do(s, Register(id)), run).entries
  {
    var before :| IsRun(NOBODY, before) && After(NOBODY, before) == s;
    RunKeepsInv(NOBODY, before);
    StepKeepsInv(s, Register(id));
    TrackedStays(Do(s, Register(id)), run, c, id);
  }

  /** Turning a consumer off leaves the others on. */
  lemma {:induction false} OthersStayOn(s: State, run: seq<Step>, c: Consumer)
    requires IsRun(s, run) && c in s.consumers
    requires forall i :: 0 <= i < |run| ==> !(run[i].LockToDisable? && run[i].c == c)
    requires forall t :: t in s.pcs && s.pcs[t].Disabling? ==> s.pcs[t].c != c
    ensures StaysOn(s, run, c)
    decreases |run|
  {
    if run != [] {
      var next := Do(s, run[0]);
      assert !(run[0].LockToDisable? && run[0].c == c);
      assert c in next.consumers;
      assert forall i :: 0 <= i < |run| - 1 ==> run[1..][i] == run[i + 1];
      OthersStayOn(next, run[1..], c);
    }
  }

  // ---- One transition, uninterrupted --------------------------------------------------------------

  /** A thread turns a consumer on. */
  function TurnedOn(s: State, t: Tid, c: Consumer): State
    requires s.lock.Free? && PcOf(s, t).Elsewhere?
  {
    Do(Do(Do(s, LockToEnable(t, c)), SetBit(t)), Unlock(t))
  }

  /** A thread turns a consumer off, and wipes the whole table if that was the last one. */
  function TurnedOff(s: State, t: Tid, c: Consumer): State
    requires s.lock.Free? && PcOf(s, t).Elsewhere? && !c.Interrupts?
  {
    var cleared := Do(Do(s, LockToDisable(t, c)), ClearBit(t));
    Do(if PcOf(cleared, t).Wiping? then Do(cleared, Wipe(t, cleared.entries)) else cleared, Unlock(t))
  }
}
