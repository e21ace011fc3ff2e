/**
 * Publication of the datapath flags as interleaved steps.
 *
 * Every attempt takes the owner lock, then the backend lock, writes the composed
 * word, and only then publishes its state and mode. An attempt may be cancelled
 * wherever it waits, its write may fail, and a fence may fail to quiesce after
 * its write landed. The machine is compared with `Replay`, the sequential effect
 * of the committed attempts in the order their writes were accepted.
 */
module FlagsProtocol {
  import opened Common
  import opened Mode

  type TaskId = nat

  datatype Op =
    | Initialize(enabled: bool, ready: bool)
    | SetMode(mode: string)
    | SetGlobalSelection(name: string)
    | SetClashMode(mode: string, config: Config, groups: map<string, string>)
    | SetClashGlobalSelection(name: string, config: Config, groups: map<string, string>)
    | Fence
    | Reopen
    | Disable
    | ReconcileTrace
    | ResetForActivation
    | ForeignBackendUse
  {
    /** Attempts that decide under the owner lock alone, before waiting for the backend. */
    predicate IsUpdate() {
      !ReconcileTrace? && !ResetForActivation? && !ForeignBackendUse?
    }
  }

  datatype Plan = Refuse | Skip | Publish(next: FlagsState, mode: ModeState)

  // ---- What one attempt would publish --------------------------------------

  function FirstGroup(names: seq<string>, groups: map<string, string>): Option<ModeTarget> {
    if names == [] then None
    else if names[0] in groups then Some(Group(groups[names[0]], names[0]))
    else FirstGroup(names[1..], groups)
  }

  function DefaultTarget(config: Config, groups: map<string, string>): Option<ModeTarget> {
    var group := FirstGroup(config.groupNames, groups);
    if group.Some? then group
    else if config.nodes != [] then Some(Node(config.nodes[0].id, config.nodes[0].name))
    else None
  }

  function NodesNamed(nodes: seq<ConfigNode>, name: string): seq<ConfigNode> {
    if nodes == [] then []
    else (if nodes[0].name == name then [nodes[0]] else []) + NodesNamed(nodes[1..], name)
  }

  /** A display name is accepted only when it denotes exactly one node or group. */
  function TargetFromName(name: string, config: Config, groups: map<string, string>): Option<ModeTarget> {
    var nodes := NodesNamed(config.nodes, name);
    if |nodes| > 1 || (|nodes| == 1 && name in groups) then None
    else if |nodes| == 1 then Some(Node(nodes[0].id, nodes[0].name))
    else if name in groups then Some(Group(groups[name], name))
    else None
  }

  function PlanClashMode(
    mode: string, config: Config, groups: map<string, string>, st: FlagsState, current: ModeState): Plan
  {
    if Normalize(mode).None? || !st.initialized then Refuse
    else
      var canonical := Normalize(mode).value;
      if current.IsNative() then
        if canonical == "Global" then
          // A stale pinned identity is never replaced by today's same-name object.
          var target := if current.selection.target.None? then DefaultTarget(config, groups)
                        else current.selection.target;
          if target.Some? && target.value.Present(config, groups)
          then Publish(st, ModeState(canonical, Target(target), FromRuntime))
          else Refuse
        else Publish(st, current.(mode := canonical, source := FromRuntime))
      else Publish(st, current.(mode := canonical))
  }

  function PlanOf(op: Op, recording: bool, st: FlagsState, current: ModeState): Plan {
    match op
    case Initialize(enabled, ready) =>
      if st.initialized then Refuse
      else Publish(st.(nfqueueEnabled := enabled, nfqueueReady := enabled && ready,
                       initialized := true, quiescenceFailed := false), current)
    case SetMode(mode) =>
      if Normalize(mode).None? || !st.initialized || current.IsNative() then Refuse
      else Publish(st, current.(mode := Normalize(mode).value))
    case SetGlobalSelection(name) =>
      if !st.initialized || current.IsNative() then Refuse
      else Publish(st, current.(selection := Name(name)))
    case SetClashMode(mode, config, groups) =>
      PlanClashMode(mode, config, groups, st, current)
    case SetClashGlobalSelection(name, config, groups) =>
      if !st.initialized then Refuse
      else if current.IsNative() then
        var target := TargetFromName(name, config, groups);
        if target.None? then Refuse
        else Publish(st, current.(selection := Target(target), source := FromRuntime))
      else Publish(st, current.(selection := Name(name)))
    case Fence =>
      if !st.initialized then Refuse else Publish(st.(nfqueueReady := false), current)
    case Reopen =>
      if !st.initialized || st.quiescenceFailed then Refuse
      else Publish(st.(nfqueueReady := st.nfqueueEnabled), current)
    case Disable =>
      if !st.initialized then Refuse
      else Publish(st.(nfqueueEnabled := false, nfqueueReady := false,
                       traceEnabled := false, initialized := false), current)
    case ReconcileTrace =>
      if !st.initialized || st.traceEnabled == recording then Skip
      else Publish(st.(traceEnabled := recording), current)
    case ResetForActivation =>
      if !current.IsNative() then Skip
      else if !st.initialized then Refuse
      else Publish(st, NativeMode())
    case ForeignBackendUse => Skip
  }

  /** A fence records whether staged decisions drained; nothing else touches that record. */
  function Settled(op: Op, next: FlagsState, quiesced: bool): FlagsState {
    if op.Fence? then next.(quiescenceFailed := !quiesced) else next
  }

  // ---- Sequential meaning ---------------------------------------------------

  datatype Commit = Commit(op: Op, recording: bool, quiesced: bool)

  /** The three published things: owner state, routing mode, and the accepted words. */
  datatype Published = Published(state: FlagsState, mode: ModeState, accepted: seq<Word>)

  function CommitOne(base: Published, c: Commit): Published {
    match PlanOf(c.op, c.recording, base.state, base.mode)
    case Publish(next, mode) =>
      Published(Settled(c.op, next, c.quiesced), mode, base.accepted + [Compose(next, mode)])
    case _ => base
  }

  function Replay(init: ModeState, log: seq<Commit>): Published {
    if log == [] then Published(FRESH_FLAGS, init, [])
    else CommitOne(Replay(init, log[..|log| - 1]), log[|log| - 1])
  }

  ghost predicate Admits(base: Published, c: Commit) {
    PlanOf(c.op, c.recording, base.state, base.mode).Publish?
  }

  ghost predicate AdmittedAt(init: ModeState, log: seq<Commit>, i: nat)
    requires i < |log|
  {
    Admits(Replay(init, log[..i]), log[i])
  }

  /** Every entry of the log was admissible when it committed. */
  ghost predicate ValidLog(init: ModeState, log: seq<Commit>) {
    forall i {:trigger AdmittedAt(init, log, i)} :: 0 <= i < |log| ==> AdmittedAt(init, log, i)
  }

  // ---- The interleaved machine ----------------------------------------------

  datatype Outcome = Refused | Skipped | Cancelled | WriteFailed | Committed | QuiesceFailed

  datatype Pc =
    | Queued
    | Prepared(draft: Plan)
    | Ready(recording: bool, next: FlagsState, mode: ModeState)
    | Written(recording: bool, next: FlagsState, mode: ModeState)
    | Quiesced(recording: bool, quiesced: bool, next: FlagsState, mode: ModeState)
    | StatePublished(recording: bool, quiesced: bool, next: FlagsState, mode: ModeState)
    | Finished(outcome: Outcome)
  {
    predicate OwnsFlags() { Prepared? || Ready? || InCommit() }
    /** From the accepted write to the last publication; there is no await in between. */
    predicate InCommit() { Written? || Quiesced? || StatePublished? }
    predicate HasCommitted() {
      InCommit() || (Finished? && (outcome.Committed? || outcome.QuiesceFailed?))
    }
    predicate Abandoned() { Finished? && !outcome.Committed? && !outcome.QuiesceFailed? }
  }

  datatype Task = Task(op: Op, pc: Pc)

  datatype System = System(
    published: Published,
    owner: Option<TaskId>,
    backend: Option<TaskId>,
    tasks: map<TaskId, Task>,
    log: seq<Commit>)
  {
    predicate CommitInProgress() {
      owner.Some? && owner.value in tasks && tasks[owner.value].pc.InCommit()
    }
  }

  datatype Step =
    | Begin(t: TaskId, op: Op)
    | TakeOwner(t: TaskId, recording: bool)
    | TakeBackend(t: TaskId, recording: bool)
    | Write(t: TaskId, accepted: bool)
    | Settle(t: TaskId, quiesced: bool)
    | PublishState(t: TaskId)
    | PublishMode(t: TaskId)
    | Cancel(t: TaskId)

  predicate ValidModeArgument(op: Op) {
    match op
    case SetMode(mode) => Normalize(mode).Some?
    case SetClashMode(mode, _, _) => Normalize(mode).Some?
    case _ => true
  }

  predicate Enabled(s: System, step: Step) {
    if step.Begin? then step.t !in s.tasks
    else
      && step.t in s.tasks
      && var task := s.tasks[step.t];
         match step
         case TakeOwner(_, _) => task.pc.Queued? && !task.op.ForeignBackendUse? && s.owner.None?
         case TakeBackend(_, _) =>
           s.backend.None? && (task.pc.Prepared? || (task.pc.Queued? && task.op.ForeignBackendUse?))
         case Write(_, _) => task.pc.Ready?
         case Settle(_, _) => task.pc.Written?
         case PublishState(_) => task.pc.Quiesced?
         case PublishMode(_) => task.pc.StatePublished?
         case Cancel(_) => task.pc.Queued? || task.pc.Prepared?
  }

  function Release(lock: Option<TaskId>, t: TaskId): Option<TaskId> {
    if lock == Some(t) then None else lock
  }

  function Finish(s: System, t: TaskId, outcome: Outcome): System
    requires t in s.tasks
  {
    s.(tasks := s.tasks[t := s.tasks[t].(pc := Finished(outcome))],
       owner := Release(s.owner, t), backend := Release(s.backend, t))
  }

  function Move(s: System, t: TaskId, pc: Pc): System
    requires t in s.tasks
  {
    s.(tasks := s.tasks[t := s.tasks[t].(pc := pc)])
  }

  function TakeOwnerEffect(s: System, t: TaskId, recording: bool): System
    requires t in s.tasks
  {
    var op := s.tasks[t].op;
    var held := s.(owner := Some(t));
    var plan := PlanOf(op, recording, s.published.state, s.published.mode);
    if op.IsUpdate() then
      if plan.Publish? then Move(held, t, Prepared(plan)) else Finish(held, t, Refused)
    else if op.ReconcileTrace? && plan.Skip? then Finish(held, t, Skipped)
    else Move(held, t, Prepared(Skip))
  }

  function TakeBackendEffect(s: System, t: TaskId, recording: bool): System
    requires t in s.tasks && (s.tasks[t].pc.Prepared? || s.tasks[t].op.ForeignBackendUse?)
  {
    var task := s.tasks[t];
    var held := s.(backend := Some(t));
    if task.op.ForeignBackendUse? then held
    else
      var plan := if task.op.IsUpdate() then task.pc.draft
                  else PlanOf(task.op, recording, s.published.state, s.published.mode);
      match plan
      case Publish(next, mode) => Move(held, t, Ready(recording, next, mode))
      case Refuse => Finish(held, t, Refused)
      case Skip => Finish(held, t, Skipped)
  }

  function Do(s: System, step: Step): System
    requires Enabled(s, step)
  {
    match step
    case Begin(t, op) =>
      s.(tasks := s.tasks[t := Task(op, if ValidModeArgument(op) then Queued else Finished(Refused))])
    case TakeOwner(t, recording) => TakeOwnerEffect(s, t, recording)
    case TakeBackend(t, recording) => TakeBackendEffect(s, t, recording)
    case Write(t, accepted) =>
      var pc := s.tasks[t].pc;
      if !accepted then Finish(s, t, WriteFailed)
      else
        Move(s.(published := s.published.(accepted := s.published.accepted + [Compose(pc.next, pc.mode)])),
             t, Written(pc.recording, pc.next, pc.mode))
    case Settle(t, quiesced) =>
      var task := s.tasks[t];
      var ok := quiesced || !task.op.Fence?;
      // An update drops the backend guard here; the other attempts keep it to the end.
      Move(s.(backend := if task.op.IsUpdate() then Release(s.backend, t) else s.backend),
           t, Quiesced(task.pc.recording, ok, task.pc.next, task.pc.mode))
    case PublishState(t) =>
      var pc := s.tasks[t].pc;
      Move(s.(published := s.published.(state := Settled(s.tasks[t].op, pc.next, pc.quiesced))),
           t, StatePublished(pc.recording, pc.quiesced, pc.next, pc.mode))
    case PublishMode(t) =>
      var task := s.tasks[t];
      var logged := s.(published := s.published.(mode := task.pc.mode),
                       log := s.log + [Commit(task.op, task.pc.recording, task.pc.quiesced)]);
      Finish(logged, t, if task.pc.quiesced then Committed else QuiesceFailed)
    case Cancel(t) => Finish(s, t, Cancelled)
  }

  function Start(mode: ModeState): System {
    System(Published(FRESH_FLAGS, mode, []), None, None, map[], [])
  }

  /** All steps of the run are enabled, one after the other. */
  ghost predicate IsRun(s: System, run: seq<Step>)
    decreases |run|
  {
    run == [] || (Enabled(s, run[0]) && IsRun(Do(s, run[0]), run[1..]))
  }

  ghost function After(s: System, run: seq<Step>): System
    requires IsRun(s, run)
    decreases |run|
  {
    if run == [] then s else After(Do(s, run[0]), run[1..])
  }

  // ---- The invariant ---------------------------------------------------------

  /** What the lock owner's progress says about the published things and the log. */
  ghost predicate OwnerProgress(s: System, base: Published, task: Task) {
    match task.pc
    case Prepared(draft) =>
      && s.published == base
      && (task.op.IsUpdate() ==>
            draft.Publish? && forall r :: PlanOf(task.op, r, base.state, base.mode) == draft)
    case Ready(recording, next, mode) =>
      && s.published == base
      && PlanOf(task.op, recording, base.state, base.mode) == Publish(next, mode)
    case Written(recording, next, mode) =>
      && s.published == base.(accepted := base.accepted + [Compose(next, mode)])
      && PlanOf(task.op, recording, base.state, base.mode) == Publish(next, mode)
    case Quiesced(recording, _, next, mode) =>
      && s.published == base.(accepted := base.accepted + [Compose(next, mode)])
      && PlanOf(task.op, recording, base.state, base.mode) == Publish(next, mode)
    case StatePublished(recording, quiesced, next, mode) =>
      && s.published == Published(Settled(task.op, next, quiesced), base.mode,
                                  base.accepted + [Compose(next, mode)])
      && PlanOf(task.op, recording, base.state, base.mode) == Publish(next, mode)
    case _ => false
  }

  ghost predicate Inv(init: ModeState, s: System) {
    var base := Replay(init, s.log);
    && ValidLog(init, s.log)
    && (forall t :: t in s.tasks && s.tasks[t].pc.OwnsFlags() ==> s.owner == Some(t))
    && (s.owner.Some? ==> s.owner.value in s.tasks && OwnerProgress(s, base, s.tasks[s.owner.value]))
    && (s.owner.None? ==> s.published == base)
  }

  lemma UpdatePlanIgnoresRecording(op: Op, r1: bool, r2: bool, st: FlagsState, mode: ModeState)
    requires op.IsUpdate()
    ensures PlanOf(op, r1, st, mode) == PlanOf(op, r2, st, mode)
  {
  }

  lemma ReplayAppend(init: ModeState, log: seq<Commit>, c: Commit)
    ensures Replay(init, log + [c]) == CommitOne(Replay(init, log), c)
  {
    assert (log + [c])[..|log + [c]| - 1] == log;
  }

  lemma ValidLogAppend(init: ModeState, log: seq<Commit>, c: Commit)
    requires ValidLog(init, log)
    requires Admits(Replay(init, log), c)
    ensures ValidLog(init, log + [c])
  {
    var longer := log + [c];
    forall i | 0 <= i < |longer|
      ensures AdmittedAt(init, longer, i)
    {
      assert longer[..i] == log[..i];
      if i < |log| {
        assert AdmittedAt(init, log, i);
      } else {
        assert log[..i] == log;
      }
    }
  }

  lemma TakeOwnerKeepsInv(init: ModeState, s: System, t: TaskId, recording: bool)
    requires Inv(init, s) && Enabled(s, TakeOwner(t, recording))
    ensures Inv(init, TakeOwnerEffect(s, t, recording))
  {
    var op := s.tasks[t].op;
    if op.IsUpdate() {
      forall r ensures PlanOf(op, r, s.published.state, s.published.mode)
                       == PlanOf(op, recording, s.published.state, s.published.mode)
      {
        UpdatePlanIgnoresRecording(op, r, recording, s.published.state, s.published.mode);
      }
    }
  }

  lemma TakeBackendKeepsInv(init: ModeState, s: System, t: TaskId, recording: bool)
    requires Inv(init, s) && Enabled(s, TakeBackend(t, recording))
    ensures Inv(init, TakeBackendEffect(s, t, recording))
  {
  }

  lemma PublishModeKeepsInv(init: ModeState, s: System, t: TaskId)
    requires Inv(init, s) && Enabled(s, PublishMode(t))
    ensures Inv(init, Do(s, PublishMode(t)))
  {
    var task := s.tasks[t];
    var c := Commit(task.op, task.pc.recording, task.pc.quiesced);
    ReplayAppend(init, s.log, c);
    ValidLogAppend(init, s.log, c);
  }

  /** The lock owner moving on keeps the invariant if its own progress condition does. */
  lemma OwnerMoveKeepsInv(init: ModeState, s: System, s': System, t: TaskId)
    requires Inv(init, s) && s.owner == Some(t) == s'.owner && s'.log == s.log
    requires t in s'.tasks && s'.tasks == s.tasks[t := s'.tasks[t]]
    requires OwnerProgress(s', Replay(init, s.log), s'.tasks[t])
    ensures Inv(init, s')
  {
  }

  lemma WriteKeepsInv(init: ModeState, s: System, t: TaskId, accepted: bool)
    requires Inv(init, s) && Enabled(s, Write(t, accepted))
    ensures Inv(init, Do(s, Write(t, accepted)))
  {
    if accepted {
      OwnerMoveKeepsInv(init, s, Do(s, Write(t, accepted)), t);
    }
  }

  lemma SettleKeepsInv(init: ModeState, s: System, t: TaskId, quiesced: bool)
    requires Inv(init, s) && Enabled(s, Settle(t, quiesced))
    ensures Inv(init, Do(s, Settle(t, quiesced)))
  {
    OwnerMoveKeepsInv(init, s, Do(s, Settle(t, quiesced)), t);
  }

  lemma PublishStateKeepsInv(init: ModeState, s: System, t: TaskId)
    requires Inv(init, s) && Enabled(s, PublishState(t))
    ensures Inv(init, Do(s, PublishState(t)))
  {
    OwnerMoveKeepsInv(init, s, Do(s, PublishState(t)), t);
  }

  lemma StepKeepsInv(init: ModeState, s: System, step: Step)
    requires Inv(init, s) && Enabled(s, step)
    ensures Inv(init, Do(s, step))
  {
    match step
    case Begin(_, _) =>
    case TakeOwner(t, recording) => TakeOwnerKeepsInv(init, s, t, recording);
    case TakeBackend(t, recording) => TakeBackendKeepsInv(init, s, t, recording);
    case Write(t, accepted) => WriteKeepsInv(init, s, t, accepted);
    case Settle(t, quiesced) => SettleKeepsInv(init, s, t, quiesced);
    case PublishState(t) => PublishStateKeepsInv(init, s, t);
    case PublishMode(t) => PublishModeKeepsInv(init, s, t);
    case Cancel(_) =>
  }

  lemma {:induction false} RunKeepsInv(init: ModeState, s: System, run: seq<Step>)
    requires Inv(init, s) && IsRun(s, run)
    ensures Inv(init, After(s, run))
    decreases |run|
  {
    if run != [] {
      StepKeepsInv(init, s, run[0]);
      RunKeepsInv(init, Do(s, run[0]), run[1..]);
    }
  }

  ghost predicate Reachable(init: ModeState, s: System) {
    exists run :: IsRun(Start(init), run) && After(Start(init), run) == s
  }

  lemma ReachableInv(init: ModeState, s: System)
    requires Reachable(init, s)
    ensures Inv(init, s)
  {
    var run :| IsRun(Start(init), run) && After(Start(init), run) == s;
    RunKeepsInv(init, Start(init), run);
  }

  // ---- Facts about the sequential meaning ------------------------------------

  /** The last accepted word is the composition of the published state and mode. */
  ghost predicate Coherent(p: Published) {
    && (p.accepted != [] ==> p.accepted[|p.accepted| - 1] == Compose(p.state, p.mode))
    && (p.state.initialized ==> p.accepted != [])
    && (p.state.nfqueueReady ==> p.state.nfqueueEnabled)
    && p.mode.IsCanonical()
  }

  /** What any admissible change may do to the owner state and the mode. */
  lemma PlanEffects(op: Op, recording: bool, st: FlagsState, current: ModeState)
    requires PlanOf(op, recording, st, current).Publish?
    ensures var plan := PlanOf(op, recording, st, current);
            && ((st.nfqueueReady ==> st.nfqueueEnabled) ==> plan.next.nfqueueReady ==> plan.next.nfqueueEnabled)
            && (current.IsCanonical() ==> plan.mode.IsCanonical())
            && (!RaisesReady(op) && (op.Fence? || !st.nfqueueReady) ==> !plan.next.nfqueueReady)
            && (!op.Initialize? ==> plan.next.quiescenceFailed == st.quiescenceFailed)
            && (op.Reopen? ==> !st.quiescenceFailed)
  {
    match op
    case SetMode(mode) =>
    case SetClashMode(mode, config, groups) =>
      assert PlanOf(op, recording, st, current) == PlanClashMode(mode, config, groups, st, current);
    case _ =>
  }

  lemma CommitOneCoherent(base: Published, c: Commit)
    requires Coherent(base) && PlanOf(c.op, c.recording, base.state, base.mode).Publish?
    ensures Coherent(CommitOne(base, c)) && |CommitOne(base, c).accepted| == |base.accepted| + 1
  {
    PlanEffects(c.op, c.recording, base.state, base.mode);
    var plan := PlanOf(c.op, c.recording, base.state, base.mode);
    assert Compose(Settled(c.op, plan.next, c.quiesced), plan.mode) == Compose(plan.next, plan.mode);
  }

  /** What a committed attempt may do to the READY bit and to a failed quiescence. */
  lemma CommitOneEffects(base: Published, c: Commit)
    requires PlanOf(c.op, c.recording, base.state, base.mode).Publish?
    ensures !RaisesReady(c.op) && (c.op.Fence? || !base.state.nfqueueReady) ==>
              !CommitOne(base, c).state.nfqueueReady
    ensures !ClearsQuiescenceFailure(c) && (c.op.Fence? || base.state.quiescenceFailed) ==>
              CommitOne(base, c).state.quiescenceFailed
    ensures c.op.Reopen? ==> !base.state.quiescenceFailed
  {
    PlanEffects(c.op, c.recording, base.state, base.mode);
  }

  /** Splitting off the last commit of a valid log. */
  lemma ReplayLast(init: ModeState, log: seq<Commit>)
    requires ValidLog(init, log) && log != []
    ensures ValidLog(init, log[..|log| - 1])
    ensures var base := Replay(init, log[..|log| - 1]);
            && PlanOf(log[|log| - 1].op, log[|log| - 1].recording, base.state, base.mode).Publish?
            && Replay(init, log) == CommitOne(base, log[|log| - 1])
  {
    PrefixValid(init, log, |log| - 1);
    assert AdmittedAt(init, log, |log| - 1);
  }

  lemma {:induction false} ReplayCoherent(init: ModeState, log: seq<Commit>)
    requires init.IsCanonical() && ValidLog(init, log)
    ensures Coherent(Replay(init, log)) && |Replay(init, log).accepted| == |log|
    decreases |log|
  {
    if log != [] {
      ReplayLast(init, log);
      ReplayCoherent(init, log[..|log| - 1]);
      CommitOneCoherent(Replay(init, log[..|log| - 1]), log[|log| - 1]);
    }
  }

  lemma PrefixValid(init: ModeState, log: seq<Commit>, k: nat)
    requires ValidLog(init, log) && k <= |log|
    ensures ValidLog(init, log[..k])
  {
    forall i | 0 <= i < k
      ensures AdmittedAt(init, log[..k], i)
    {
      assert log[..k][..i] == log[..i] && AdmittedAt(init, log, i);
    }
  }

  lemma CommitOneAccepts(base: Published, c: Commit)
    requires Admits(base, c)
    ensures base.accepted < CommitOne(base, c).accepted
  {
  }

  /** Accepted words are never rewritten: each prefix of the log accounts for its own. */
  lemma {:induction false} ReplayPrefix(init: ModeState, log: seq<Commit>, k: nat)
    requires init.IsCanonical() && ValidLog(init, log) && k <= |log|
    ensures |Replay(init, log).accepted| == |log|
    ensures Replay(init, log).accepted[..k] == Replay(init, log[..k]).accepted
    decreases |log|
  {
    ReplayCoherent(init, log);
    if k == |log| {
      assert log[..k] == log;
    } else {
      var front := log[..|log| - 1];
      ReplayLast(init, log);
      CommitOneAccepts(Replay(init, front), log[|log| - 1]);
      ReplayPrefix(init, front, k);
      assert front[..k] == log[..k];
      PrefixOfPrefix(Replay(init, front).accepted, Replay(init, log).accepted, k);
    }
  }

  lemma PrefixOfPrefix<T>(a: seq<T>, b: seq<T>, k: nat)
    requires a <= b && k <= |a|
    ensures a[..k] == b[..k]
  {
  }

  /** The word at a position is the composition published by the log up to it. */
  lemma WordAt(init: ModeState, log: seq<Commit>, j: nat)
    requires init.IsCanonical() && ValidLog(init, log) && j < |log|
    ensures ValidLog(init, log[..j + 1]) && |Replay(init, log).accepted| == |log|
    ensures Coherent(Replay(init, log[..j + 1]))
    ensures Replay(init, log).accepted[j]
            == Compose(Replay(init, log[..j + 1]).state, Replay(init, log[..j + 1]).mode)
  {
    PrefixValid(init, log, j + 1);
    ReplayPrefix(init, log, j + 1);
    ReplayCoherent(init, log[..j + 1]);
    assert Replay(init, log).accepted[j] == Replay(init, log).accepted[..j + 1][j];
  }

  predicate RaisesReady(op: Op) { op.Reopen? || op.Initialize? }

  lemma {:induction false} ReadyStaysDown(init: ModeState, log: seq<Commit>, i: nat)
    requires ValidLog(init, log) && i < |log| && log[i].op.Fence?
    requires forall k :: i < k < |log| ==> !RaisesReady(log[k].op)
    ensures !Replay(init, log).state.nfqueueReady
    decreases |log|
  {
    ReplayLast(init, log);
    CommitOneEffects(Replay(init, log[..|log| - 1]), log[|log| - 1]);
    if i < |log| - 1 {
      ReadyStaysDown(init, log[..|log| - 1], i);
    }
  }

  /** After a fence, no later word carries READY before a reopen or an initialise. */
  lemma LogFence(init: ModeState, log: seq<Commit>, i: nat, j: nat)
    requires init.IsCanonical() && ValidLog(init, log) && i <= j < |log| && log[i].op.Fence?
    requires forall k :: i < k <= j ==> !RaisesReady(log[k].op)
    ensures |Replay(init, log).accepted| == |log|
    ensures !Has(Replay(init, log).accepted[j], NFQ_READY)
  {
    WordAt(init, log, j);
    ReadyStaysDown(init, log[..j + 1], i);
    ComposeBits(Replay(init, log[..j + 1]).state, Replay(init, log[..j + 1]).mode);
  }

  lemma LogReadyImpliesEnabled(init: ModeState, log: seq<Commit>, j: nat)
    requires init.IsCanonical() && ValidLog(init, log) && j < |log|
    ensures |Replay(init, log).accepted| == |log|
    ensures Has(Replay(init, log).accepted[j], NFQ_READY) ==> Has(Replay(init, log).accepted[j], NFQ_ENABLED)
  {
    WordAt(init, log, j);
    ComposeBits(Replay(init, log[..j + 1]).state, Replay(init, log[..j + 1]).mode);
  }

  predicate ClearsQuiescenceFailure(c: Commit) { c.op.Initialize? || (c.op.Fence? && c.quiesced) }

  lemma {:induction false} QuiescenceFailureStays(init: ModeState, log: seq<Commit>, i: nat)
    requires ValidLog(init, log) && i < |log| && log[i].op.Fence? && !log[i].quiesced
    requires forall k :: i < k < |log| ==> !ClearsQuiescenceFailure(log[k])
    ensures Replay(init, log).state.quiescenceFailed
    decreases |log|
  {
    ReplayLast(init, log);
    CommitOneEffects(Replay(init, log[..|log| - 1]), log[|log| - 1]);
    if i < |log| - 1 {
      QuiescenceFailureStays(init, log[..|log| - 1], i);
    }
  }

  lemma TargetFromNamePresent(name: string, config: Config, groups: map<string, string>)
    requires TargetFromName(name, config, groups).Some?
    ensures var target := TargetFromName(name, config, groups).value;
            target.name == name && target.Present(config, groups)
  {
    NodesNamedArePresent(config.nodes, name);
  }

  lemma {:induction false} NodesNamedArePresent(nodes: seq<ConfigNode>, name: string)
    ensures forall i :: 0 <= i < |NodesNamed(nodes, name)| ==>
              NodesNamed(nodes, name)[i] in nodes && NodesNamed(nodes, name)[i].name == name
  {
    if nodes != [] {
      NodesNamedArePresent(nodes[1..], name);
    }
  }

  /** The mode a request asks for, if it asks for one. */
  function RequestedMode(op: Op): Option<string> {
    match op
    case SetMode(mode) => Some(mode)
    case SetClashMode(mode, _, _) => Some(mode)
    case _ => None
  }

  lemma NormalizeKeepsMeaning(mode: string)
    ensures Normalize(mode).Some? ==> Lower(Normalize(mode).value) == Lower(mode)
  {
    assert Lower("Rule") == "rule" && Lower("Global") == "global" && Lower("Direct") == "direct";
  }

  lemma CommittedClashModeTakesEffect(base: Published, c: Commit)
    requires c.op.SetClashMode? && base.mode.IsCanonical() && Admits(base, c)
    ensures TakesEffect(base, c, CommitOne(base, c).mode)
  {
    NormalizeKeepsMeaning(c.op.mode);
    CanonicalModes(CommitOne(base, c).mode);
  }

  lemma CommittedSelectionTakesEffect(base: Published, c: Commit)
    requires c.op.SetClashGlobalSelection? && Admits(base, c)
    ensures TakesEffect(base, c, CommitOne(base, c).mode)
  {
    if base.mode.IsNative() {
      TargetFromNamePresent(c.op.name, c.op.config, c.op.groups);
    }
  }

  /** What a committed attempt makes of the mode. */
  ghost predicate TakesEffect(base: Published, c: Commit, mode: ModeState) {
    && mode.IsNative() == base.mode.IsNative()
    && (RequestedMode(c.op).Some? ==> Lower(mode.mode) == Lower(RequestedMode(c.op).value))
    && (RequestedMode(c.op).None? && !c.op.ResetForActivation? ==> mode.mode == base.mode.mode)
    && (c.op.SetClashMode? && mode.IsNative() && mode.IsGlobal() ==>
          mode.selection.target.Some? && mode.selection.target.value.Present(c.op.config, c.op.groups))
    && (RequestedMode(c.op).Some? && (!base.mode.IsNative() || base.mode.selection.target.Some?) ==>
          mode.selection == base.mode.selection)
    && (c.op.SetClashGlobalSelection? && mode.IsNative() ==>
          mode.selection.target.Some? && mode.selection.target.value.name == c.op.name
          && mode.selection.target.value.Present(c.op.config, c.op.groups))
  }

  /**
   * A committed mode request is in force exactly as asked, up to letter case; requests never
   * move a process between native and legacy control; and a pinned native target survives
   * every mode request, which is committed to Global only while its target exists.
   */
  lemma CommittedRequestsTakeEffect(base: Published, c: Commit)
    requires base.mode.IsCanonical() && Admits(base, c)
    ensures TakesEffect(base, c, CommitOne(base, c).mode)
  {
    if c.op.SetClashMode? {
      CommittedClashModeTakesEffect(base, c);
    } else if c.op.SetClashGlobalSelection? {
      CommittedSelectionTakesEffect(base, c);
    } else if c.op.SetMode? {
      NormalizeKeepsMeaning(c.op.mode);
    }
  }

  // ---- Statements about every reachable state ----------------------------------

  ghost function LandedCommit(task: Task): Commit
    requires task.pc.InCommit()
  {
    Commit(task.op, task.pc.recording, if task.pc.Written? then true else task.pc.quiesced)
  }

  /** The log extended by the commit whose write has landed but is not fully published. */
  ghost function LandedLog(s: System): seq<Commit> {
    if s.CommitInProgress() then s.log + [LandedCommit(s.tasks[s.owner.value])] else s.log
  }

  lemma LandedLogExplainsWords(init: ModeState, s: System)
    requires Inv(init, s)
    ensures ValidLog(init, LandedLog(s))
    ensures s.published.accepted == Replay(init, LandedLog(s)).accepted
  {
    if s.CommitInProgress() {
      var c := LandedCommit(s.tasks[s.owner.value]);
      ReplayAppend(init, s.log, c);
      ValidLogAppend(init, s.log, c);
      assert s.published.accepted == CommitOne(Replay(init, s.log), c).accepted;
    }
  }

  ghost function Ops(log: seq<Commit>): seq<Op> {
    seq(|log|, i requires 0 <= i < |log| => log[i].op)
  }

  lemma CommitStartsWithAcceptedWrite(init: ModeState, s: System, step: Step)
    requires Inv(init, s) && Enabled(s, step)
    requires step.Begin? || step.TakeOwner? || step.TakeBackend? || step.Cancel?
    ensures LandedLog(Do(s, step)) == LandedLog(s)
  {
    var s' := Do(s, step);
    if s.CommitInProgress() {
      assert step.t != s.owner.value;
      assert s'.owner == s.owner && s'.tasks[s.owner.value] == s.tasks[s.owner.value];
    } else {
      assert !s'.tasks[step.t].pc.InCommit();
    }
  }

  /** The landed log grows by an attempt's operation exactly when its write is accepted. */
  lemma OnlyAcceptedWritesLand(init: ModeState, s: System, step: Step)
    requires Reachable(init, s) && Enabled(s, step)
    ensures Ops(LandedLog(Do(s, step)))
            == Ops(LandedLog(s)) + (if step.Write? && step.accepted then [s.tasks[step.t].op] else [])
  {
    ReachableInv(init, s);
    if step.Begin? || step.TakeOwner? || step.TakeBackend? || step.Cancel? {
      CommitStartsWithAcceptedWrite(init, s, step);
    } else {
      assert s.owner == Some(step.t) && Do(s, step).tasks.Keys == s.tasks.Keys;
    }
  }

  /**
   * Whatever the interleaving, the published state, mode and accepted words are those of
   * running the committed attempts alone, one after the other.
   */
  lemma RunsSerialise(init: ModeState, s: System)
    requires Reachable(init, s)
    ensures ValidLog(init, s.log)
    ensures !s.CommitInProgress() ==> s.published == Replay(init, s.log)
  {
    ReachableInv(init, s);
  }

  /** Outside a commit the kernel word is the composition of what the owner publishes. */
  lemma KernelMatchesOwner(init: ModeState, s: System)
    requires init.IsCanonical() && Reachable(init, s) && !s.CommitInProgress()
    ensures Coherent(s.published)
  {
    RunsSerialise(init, s);
    ReplayCoherent(init, s.log);
  }

  /** READY without ENABLED is never written, not even in the middle of a commit. */
  lemma ReadyImpliesEnabledAlways(init: ModeState, s: System, i: nat)
    requires init.IsCanonical() && Reachable(init, s) && i < |s.published.accepted|
    ensures Has(s.published.accepted[i], NFQ_READY) ==> Has(s.published.accepted[i], NFQ_ENABLED)
  {
    ReachableInv(init, s);
    LandedLogExplainsWords(init, s);
    ReplayCoherent(init, LandedLog(s));
    LogReadyImpliesEnabled(init, LandedLog(s), i);
  }

  /** Once a fence's write landed, READY stays clear until a reopen's or initialise's write lands. */
  lemma FenceHoldsUntilReopen(init: ModeState, s: System, i: nat, j: nat)
    requires init.IsCanonical() && Reachable(init, s)
    requires i <= j < |LandedLog(s)| && LandedLog(s)[i].op.Fence?
    requires forall k :: i < k <= j ==> !RaisesReady(LandedLog(s)[k].op)
    ensures |s.published.accepted| == |LandedLog(s)|
    ensures !Has(s.published.accepted[j], NFQ_READY)
  {
    ReachableInv(init, s);
    LandedLogExplainsWords(init, s);
    LogFence(init, LandedLog(s), i, j);
  }

  /** An admissible log holds no reopen between a failed fence and whatever clears the failure. */
  lemma LogRefusesReopen(init: ModeState, log: seq<Commit>, i: nat)
    requires ValidLog(init, log) && i < |log| && log[i].op.Fence? && !log[i].quiesced
    requires forall k :: i < k < |log| ==> !ClearsQuiescenceFailure(log[k])
    ensures forall k :: i < k < |log| ==> !log[k].op.Reopen?
  {
    forall k | i < k < |log| ensures !log[k].op.Reopen? {
      PrefixValid(init, log, k);
      QuiescenceFailureStays(init, log[..k], i);
      assert AdmittedAt(init, log, k);
      CommitOneEffects(Replay(init, log[..k]), log[k]);
    }
  }

  /**
   * After a fence that failed to quiesce, a reopen that gets the owner lock is refused and
   * none commits, until a later fence completes or the flags are initialised again.
   */
  lemma FailedQuiescenceRefusesReopen(init: ModeState, s: System, i: nat)
    requires Reachable(init, s)
    requires i < |s.log| && s.log[i].op.Fence? && !s.log[i].quiesced
    requires forall k :: i < k < |s.log| ==> !ClearsQuiescenceFailure(s.log[k])
    ensures forall k :: i < k < |s.log| ==> !s.log[k].op.Reopen?
    ensures forall t, r :: Enabled(s, TakeOwner(t, r)) && s.tasks[t].op.Reopen? ==>
              Do(s, TakeOwner(t, r)).tasks[t].pc == Finished(Refused)
  {
    ReachableInv(init, s);
    LogRefusesReopen(init, s.log, i);
    QuiescenceFailureStays(init, s.log, i);
  }

  // ---- Attempts that do not commit -------------------------------------------

  lemma CommittedIsForever(init: ModeState, s: System, step: Step, t: TaskId)
    requires Inv(init, s) && Enabled(s, step) && t in s.tasks && s.tasks[t].pc.HasCommitted()
    ensures t in Do(s, step).tasks && Do(s, step).tasks[t].pc.HasCommitted()
  {
  }

  lemma {:induction false} CommittedIsForeverInRuns(init: ModeState, s: System, run: seq<Step>, t: TaskId)
    requires Inv(init, s) && IsRun(s, run) && t in s.tasks && s.tasks[t].pc.HasCommitted()
    ensures t in After(s, run).tasks && After(s, run).tasks[t].pc.HasCommitted()
    decreases |run|
  {
    if run != [] {
      CommittedIsForever(init, s, run[0], t);
      StepKeepsInv(init, s, run[0]);
      CommittedIsForeverInRuns(init, Do(s, run[0]), run[1..], t);
    }
  }

  lemma ChangesOnlyInCommit(init: ModeState, s: System, step: Step)
    requires Inv(init, s) && Enabled(s, step) && Do(s, step).published != s.published
    ensures Do(s, step).tasks[step.t].pc.HasCommitted()
  {
  }

  lemma {:induction false} RunSplit(s: System, run: seq<Step>, k: nat)
    requires IsRun(s, run) && k <= |run|
    ensures IsRun(s, run[..k]) && IsRun(After(s, run[..k]), run[k..])
    ensures After(After(s, run[..k]), run[k..]) == After(s, run)
    decreases k
  {
    if k == 0 {
      assert run[..0] == [] && run[0..] == run;
    } else {
      RunSplit(Do(s, run[0]), run[1..], k - 1);
      assert run[..k][0] == run[0] && run[..k][1..] == run[1..][..k - 1];
      assert run[1..][k - 1..] == run[k..];
    }
  }

  /** The k-th step of a run leads from the k-step prefix to the next one. */
  lemma StepOfRun(s: System, run: seq<Step>, k: nat)
    requires IsRun(s, run) && k < |run|
    ensures IsRun(s, run[..k]) && IsRun(s, run[..k + 1]) && IsRun(After(s, run[..k + 1]), run[k + 1..])
    ensures Enabled(After(s, run[..k]), run[k])
    ensures After(s, run[..k + 1]) == Do(After(s, run[..k]), run[k])
    ensures After(After(s, run[..k + 1]), run[k + 1..]) == After(s, run)
  {
    RunSplit(s, run, k);
    RunSplit(s, run, k + 1);
    RunSplit(s, run[..k + 1], k);
    assert run[..k + 1][..k] == run[..k] && run[..k + 1][k..] == [run[k]];
    assert After(After(s, run[..k]), [run[k]]) == After(Do(After(s, run[..k]), run[k]), []);
  }

  lemma AbandonedStepChangesNothing(init: ModeState, s: System, step: Step, rest: seq<Step>)
    requires Inv(init, s) && Enabled(s, step) && IsRun(Do(s, step), rest)
    requires step.t in After(Do(s, step), rest).tasks && After(Do(s, step), rest).tasks[step.t].pc.Abandoned()
    ensures Do(s, step).published == s.published
  {
    if Do(s, step).published != s.published {
      ChangesOnlyInCommit(init, s, step);
      StepKeepsInv(init, s, step);
      CommittedIsForeverInRuns(init, Do(s, step), rest, step.t);
    }
  }

  /**
   * An attempt that ended refused, skipped, cancelled or with a failed write took no step
   * that changed the owner state, the mode or the kernel word.
   */
  lemma AbandonedAttemptsChangeNothing(init: ModeState, s: System, run: seq<Step>, k: nat)
    requires Reachable(init, s) && IsRun(s, run) && k < |run|
    requires run[k].t in After(s, run).tasks && After(s, run).tasks[run[k].t].pc.Abandoned()
    ensures IsRun(s, run[..k]) && IsRun(s, run[..k + 1])
    ensures After(s, run[..k + 1]).published == After(s, run[..k]).published
  {
    ReachableInv(init, s);
    StepOfRun(s, run, k);
    RunKeepsInv(init, s, run[..k]);
    AbandonedStepChangesNothing(init, After(s, run[..k]), run[k], run[k + 1..]);
  }

  // ---- Kernel offload agrees with userspace routing ---------------------------

  /** In every quiet reachable state the offload bits say what userspace routing would do. */
  lemma OffloadAgreesWithRouting(
    init: ModeState, s: System, config: Config, groups: map<string, string>, resolvable: bool)
    requires init.IsCanonical() && Reachable(init, s) && !s.CommitInProgress()
    requires s.published.accepted != []
    requires DirectAvailable(s.published.mode, config, resolvable)
    ensures var mode, word := s.published.mode, s.published.accepted[|s.published.accepted| - 1];
            && (Has(word, OFFLOAD_ALL) <==>
                  forall outbound :: outbound != "block" ==> RoutesDirect(mode, outbound, config, groups, resolvable))
            && (Has(word, OFFLOAD_RULE_DIRECT) ==> RoutesUnchanged(mode, config, groups, resolvable))
  {
    KernelMatchesOwner(init, s);
    ComposeBits(s.published.state, s.published.mode);
    OffloadAllIffEveryFlowIsDirect(s.published.mode, config, groups, resolvable);
    RuleOffloadLeavesRoutesUnchanged(s.published.mode, config, groups, resolvable);
  }

  // ---- The owner object, one call at a time -----------------------------------

  /** The flags owner without interleaving: each call commits as `CommitOne` says, or changes nothing. */
  class DatapathFlags {
    var state: FlagsState
    var mode: ModeState
    var accepted: seq<Word>

    constructor (mode: ModeState)
      ensures Current() == Replay(mode, [])
    {
      this.state := FRESH_FLAGS;
      this.mode := mode;
      this.accepted := [];
    }

    ghost function Current(): Published
      reads this
    {
      Published(state, mode, accepted)
    }

    method Update(op: Op, writeAccepted: bool, quiesced: bool) returns (outcome: Outcome)
      requires op.IsUpdate()
      modifies this
      ensures var plan := PlanOf(op, false, old(state), old(mode));
              Current() == if plan.Publish? && writeAccepted
                           then CommitOne(old(Current()), Commit(op, false, quiesced)) else old(Current())
      ensures outcome.Refused? <==> PlanOf(op, false, old(state), old(mode)) == Refuse
      ensures outcome.QuiesceFailed? ==> op.Fence? && state.quiescenceFailed && !state.nfqueueReady
    {
      var plan := PlanOf(op, false, state, mode);
      if plan.Refuse? {
        return Refused;
      }
      var next := plan.next;
      var word := Compose(next, plan.mode);
      if !writeAccepted {
        return WriteFailed;
      }
      accepted := accepted + [word];
      if op.Fence? {
        next := next.(quiescenceFailed := !quiesced);
      }
      state := next;
      mode := plan.mode;
      outcome := if op.Fence? && !quiesced then QuiesceFailed else Committed;
    }

    /** `before` and `after` are the demand read before and after waiting for the backend. */
    method ReconcileKernelTrace(before: bool, after: bool, writeAccepted: bool) returns (outcome: Outcome)
      modifies this
      ensures Current() == if outcome.Committed? then CommitOne(old(Current()), Commit(ReconcileTrace, after, true))
                           else old(Current())
      ensures outcome.Committed? ==> state.traceEnabled == after && state.initialized && mode == old(mode)
      ensures outcome.Skipped? <==> !old(state).initialized || old(state).traceEnabled == before
                                    || old(state).traceEnabled == after
    {
      if !state.initialized || state.traceEnabled == before || state.traceEnabled == after {
        return Skipped;
      }
      var next := state.(traceEnabled := after);
      if !writeAccepted {
        return WriteFailed;
      }
      accepted := accepted + [Compose(next, mode)];
      state := next;
      outcome := Committed;
    }

    method ResetMode(writeAccepted: bool) returns (outcome: Outcome)
      modifies this
      ensures Current() == if outcome.Committed? then CommitOne(old(Current()), Commit(ResetForActivation, false, true))
                           else old(Current())
      ensures outcome.Committed? ==> mode == NativeMode() && state == old(state)
      ensures outcome.Skipped? <==> !old(mode).IsNative()
      ensures outcome.Refused? <==> old(mode).IsNative() && !old(state).initialized
    {
      if !mode.IsNative() {
        return Skipped;
      }
      if !state.initialized {
        return Refused;
      }
      if !writeAccepted {
        return WriteFailed;
      }
      accepted := accepted + [Compose(state, NativeMode())];
      mode := NativeMode();
      outcome := Committed;
    }
  }
}
