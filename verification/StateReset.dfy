/**
 * Moving a corrupt state database aside. Processes open the database under a shared lock
 * and reset it under an exclusive one; any of them may fail or crash between two steps.
 * Files are identities: what they contain is not modelled.
 */
module StateReset {
  import opened Common

  type File = nat
  type Pid = nat

  datatype Dir = Dir(db: Option<File>, wal: Option<File>, shm: Option<File>,
                     corrupt: Option<File>, corruptWal: Option<File>)

  /**
   * Where a process is. The locks follow from it: opening, checking and using the database
   * hold the directory lock shared; the steps of a reset, and deleting the administrator
   * record, hold it exclusively.
   */
  datatype Pc =
    | Outside
    | Opening
    | Checking
    | Using
    | FoundCorrupt
    | ResetLocked
    | WalNext
    | DbNext
    | ShmNext
    | SyncNext
    | Administering

  predicate HoldsShared(pc: Pc) { pc.Opening? || pc.Checking? || pc.Using? }

  predicate Resetting(pc: Pc) {
    pc.ResetLocked? || pc.WalNext? || pc.DbNext? || pc.ShmNext? || pc.SyncNext?
  }

  predicate HoldsExclusive(pc: Pc) { Resetting(pc) || pc.Administering? }

  /** `next` is a file not made yet; `owner` is the database a `-wal` was made for. */
  datatype State = State(dir: Dir, pcs: map<Pid, Pc>, next: File, owner: map<File, File>)

  function PcOf(s: State, p: Pid): Pc { if p in s.pcs then s.pcs[p] else Outside }

  function Goto(s: State, p: Pid, pc: Pc): State { s.(pcs := s.pcs[p := pc]) }

  predicate NobodyExclusive(s: State) { forall q :: q in s.pcs ==> !HoldsExclusive(s.pcs[q]) }

  predicate NobodyHolds(s: State) {
    forall q :: q in s.pcs ==> !HoldsExclusive(s.pcs[q]) && !HoldsShared(s.pcs[q])
  }

  /** Checking may open the file read-write, as using and administering it do. */
  predicate CanUse(s: State, p: Pid) {
    && (PcOf(s, p).Checking? || PcOf(s, p).Using? || PcOf(s, p).Administering?)
    && s.dir.db.Some?
  }

  datatype WalChange = Keep | Make | Remove

  datatype Step =
    | LockForOpen(p: Pid)
    | CreateOrOpen(p: Pid)
    | FinishCheck(p: Pid, corrupt: bool)
    | Sqlite(p: Pid, wal: WalChange, shm: WalChange)
    | LockForReset(p: Pid)
    | LookForEarlier(p: Pid)
    | MoveWal(p: Pid)
    | MoveDb(p: Pid)
    | DropShm(p: Pid)
    | SyncAndReopen(p: Pid)
    | LockForAdmin(p: Pid)
    | Leave(p: Pid)              // closing, an error return, or a crash: the locks go with it

  /** A rename that fails rather than replace its target; a missing source is not an error. */
  datatype Renamed = Renamed(from: Option<File>, to: Option<File>, refused: bool)

  function RenameNoreplace(from: Option<File>, to: Option<File>): Renamed {
    if from.None? then Renamed(from, to, false)
    else if to.Some? then Renamed(from, to, true)
    else Renamed(None, from, false)
  }

  function ChangedFile(change: WalChange, file: Option<File>, made: File): Option<File> {
    match change
    case Keep => file
    case Make => if file.Some? then file else Some(made)
    case Remove => None
  }

  /** A step that is not enabled changes nothing. */
  function Do(s: State, step: Step): State {
    match step
    case LockForOpen(p) =>
      if PcOf(s, p).Outside? && NobodyExclusive(s) then Goto(s, p, Opening) else s
    case CreateOrOpen(p) =>
      if !PcOf(s, p).Opening? then s
      else if s.dir.db.Some? then Goto(s, p, Checking)
      else Goto(s, p, Checking).(dir := s.dir.(db := Some(s.next)), next := s.next + 1)
    case FinishCheck(p, corrupt) =>
      if !PcOf(s, p).Checking? then s else Goto(s, p, if corrupt then FoundCorrupt else Using)
    case Sqlite(p, wal, shm) =>
      if !CanUse(s, p) then s
      else
        s.(dir := s.dir.(wal := ChangedFile(wal, s.dir.wal, s.next), shm := ChangedFile(shm, s.dir.shm, s.next + 1)),
           next := s.next + 2,
           owner := if wal.Make? && s.dir.wal.None? then s.owner[s.next := s.dir.db.value] else s.owner)
    case LockForReset(p) =>
      if PcOf(s, p).FoundCorrupt? && NobodyHolds(s) then Goto(s, p, ResetLocked) else s
    case LookForEarlier(p) =>
      if !PcOf(s, p).ResetLocked? then s else Goto(s, p, if s.dir.corrupt.Some? then Outside else WalNext)
    case MoveWal(p) =>
      if !PcOf(s, p).WalNext? then s
      else
        var r := RenameNoreplace(s.dir.wal, s.dir.corruptWal);
        Goto(s, p, if r.refused then Outside else DbNext).(dir := s.dir.(wal := r.from, corruptWal := r.to))
    case MoveDb(p) =>
      if !PcOf(s, p).DbNext? then s
      else
        var r := RenameNoreplace(s.dir.db, s.dir.corrupt);
        Goto(s, p, if r.refused then Outside else ShmNext).(dir := s.dir.(db := r.from, corrupt := r.to))
    case DropShm(p) =>
      if !PcOf(s, p).ShmNext? then s else Goto(s, p, SyncNext).(dir := s.dir.(shm := None))
    case SyncAndReopen(p) =>
      if !PcOf(s, p).SyncNext? then s else Goto(s, p, Outside)
    case LockForAdmin(p) =>
      if PcOf(s, p).Outside? && NobodyHolds(s) && s.dir.db.Some? then Goto(s, p, Administering) else s
    case Leave(p) => Goto(s, p, Outside)
  }

  function After(s: State, run: seq<Step>): State
    decreases |run|
  {
    if run == [] then s else After(Do(s, run[0]), run[1..])
  }

  // ---- What every step keeps --------------------------------------------------------------------

  ghost predicate Exclusion(pcs: map<Pid, Pc>) {
    forall p, q :: p in pcs && q in pcs && p != q && HoldsExclusive(pcs[p]) ==>
      !HoldsExclusive(pcs[q]) && !HoldsShared(pcs[q])
  }

  /** What a process relies on at its place. */
  ghost predicate PcOk(dir: Dir, pc: Pc) {
    && (pc.Checking? || pc.Using? || pc.Administering? ==> dir.db.Some?)
    && (pc.DbNext? || pc.ShmNext? || pc.SyncNext? ==> dir.wal.None?)
    && (pc.FoundCorrupt? || pc.ResetLocked? ==> dir.db.Some? || dir.corrupt.Some?)
    && (pc.WalNext? || pc.DbNext? ==> dir.db.Some? && dir.corrupt.None?)
    && (pc.ShmNext? || pc.SyncNext? ==> dir.db.None? && dir.corrupt.Some?)
  }

  ghost predicate PcsOk(dir: Dir, pcs: map<Pid, Pc>) {
    forall p :: p in pcs ==> PcOk(dir, pcs[p])
  }

  /** A `-wal` is beside the database it belongs to, or saved beside where that database is saved. */
  ghost predicate WalsOk(dir: Dir, owner: map<File, File>, next: File) {
    && (forall w :: w in owner ==> w < next)
    && (dir.wal.Some? ==> dir.wal.value in owner && dir.db == Some(owner[dir.wal.value]))
    && (dir.corruptWal.Some? ==>
          && dir.corruptWal.value in owner
          && (dir.corrupt == Some(owner[dir.corruptWal.value])
              || (dir.corrupt.None? && dir.db == Some(owner[dir.corruptWal.value]))))
  }

  ghost predicate Inv(s: State) {
    Exclusion(s.pcs) && PcsOk(s.dir, s.pcs) && WalsOk(s.dir, s.owner, s.next)
  }

  /** Nobody is at work, and the files in the directory belong together. */
  ghost predicate Start(s: State) { s.pcs == map[] && WalsOk(s.dir, s.owner, s.next) }

  lemma PcMoves(dir: Dir, pcs: map<Pid, Pc>, p: Pid, pc: Pc)
    requires Exclusion(pcs) && PcsOk(dir, pcs) && PcOk(dir, pc)
    requires HoldsExclusive(pc) ==>
               forall q :: q in pcs && q != p ==> !HoldsExclusive(pcs[q]) && !HoldsShared(pcs[q])
    requires HoldsShared(pc) ==> forall q :: q in pcs && q != p ==> !HoldsExclusive(pcs[q])
    ensures Exclusion(pcs[p := pc]) && PcsOk(dir, pcs[p := pc])
  {
  }

  lemma DirMoves(dir: Dir, to: Dir, pcs: map<Pid, Pc>, p: Pid, pc: Pc)
    requires Exclusion(pcs) && p in pcs && HoldsExclusive(pcs[p]) && PcOk(to, pc) && !HoldsShared(pc)
    requires to.db.Some? || to.corrupt.Some?
    ensures Exclusion(pcs[p := pc]) && PcsOk(to, pcs[p := pc])
  {
    forall q | q in pcs && q != p
      ensures PcOk(to, pcs[q])
    {
      assert !HoldsExclusive(pcs[q]) && !HoldsShared(pcs[q]);
    }
  }

  lemma StepKeepsInv(s: State, step: Step)
    requires Inv(s)
    ensures Inv(Do(s, step))
  {
    var t := Do(s, step);
    match step {
      case LockForOpen(p) =>
        if t != s { PcMoves(s.dir, s.pcs, p, Opening); }
      case CreateOrOpen(p) =>
        if PcOf(s, p).Opening? { CreateKeepsInv(s, p); }
      case FinishCheck(p, corrupt) =>
        if PcOf(s, p).Checking? {
          PcMoves(s.dir, s.pcs, p, if corrupt then FoundCorrupt else Using);
        }
      case Sqlite(p, wal, shm) =>
        SqliteKeepsInv(s, p, wal, shm);
      case LockForReset(p) =>
        if t != s { PcMoves(s.dir, s.pcs, p, ResetLocked); }
      case LookForEarlier(p) =>
        if PcOf(s, p).ResetLocked? {
          PcMoves(s.dir, s.pcs, p, if s.dir.corrupt.Some? then Outside else WalNext);
        }
      case MoveWal(p) =>
        if PcOf(s, p).WalNext? { DirMoves(s.dir, t.dir, s.pcs, p, t.pcs[p]); }
      case MoveDb(p) =>
        if PcOf(s, p).DbNext? { DirMoves(s.dir, t.dir, s.pcs, p, t.pcs[p]); }
      case DropShm(p) =>
        if PcOf(s, p).ShmNext? { DirMoves(s.dir, t.dir, s.pcs, p, t.pcs[p]); }
      case SyncAndReopen(p) =>
        if PcOf(s, p).SyncNext? { PcMoves(s.dir, s.pcs, p, Outside); }
      case LockForAdmin(p) =>
        if t != s { PcMoves(s.dir, s.pcs, p, Administering); }
      case Leave(p) =>
        PcMoves(s.dir, s.pcs, p, Outside);
    }
  }

  lemma CreateKeepsInv(s: State, p: Pid)
    requires Inv(s) && PcOf(s, p).Opening?
    ensures Inv(Do(s, CreateOrOpen(p)))
  {
    var t := Do(s, CreateOrOpen(p));
    forall q | q in s.pcs
      ensures PcOk(t.dir, s.pcs[q])
    {
    }
    PcMoves(t.dir, s.pcs, p, Checking);
  }

  lemma SqliteKeepsInv(s: State, p: Pid, wal: WalChange, shm: WalChange)
    requires Inv(s)
    ensures Inv(Do(s, Sqlite(p, wal, shm)))
  {
    var t := Do(s, Sqlite(p, wal, shm));
    if t != s {
      forall q | q in s.pcs
        ensures PcOk(t.dir, s.pcs[q])
      {
        assert PcOk(s.dir, s.pcs[q]);
        assert !Resetting(s.pcs[q]);
      }
    }
  }

  lemma {:induction false} RunKeepsInv(s: State, run: seq<Step>)
    requires Inv(s)
    ensures Inv(After(s, run))
    decreases |run|
  {
    if run != [] {
      StepKeepsInv(s, run[0]);
      RunKeepsInv(Do(s, run[0]), run[1..]);
    }
  }

  /** A state some run of opens, resets, failures, crashes and restarts can reach. */
  ghost predicate Reachable(s: State) {
    exists start, run :: Start(start) && After(start, run) == s
  }

  lemma ReachableInv(s: State)
    requires Reachable(s)
    ensures Inv(s)
  {
    var start, run :| Start(start) && After(start, run) == s;
    RunKeepsInv(start, run);
  }

  // ---- What a reader of the directory may rely on ----------------------------------------------------

  /** An earlier saved copy is never overwritten or removed. */
  lemma {:induction false} SavedCopiesStay(s: State, run: seq<Step>)
    ensures s.dir.corrupt.Some? ==> After(s, run).dir.corrupt == s.dir.corrupt
    ensures s.dir.corruptWal.Some? ==> After(s, run).dir.corruptWal == s.dir.corruptWal
    decreases |run|
  {
    if run != [] {
      SavedCopiesStay(Do(s, run[0]), run[1..]);
    }
  }

  ghost predicate KeepsDb(dir: Dir, f: File) { dir.db == Some(f) || dir.corrupt == Some(f) }

  ghost predicate KeepsWal(dir: Dir, w: File) { dir.wal == Some(w) || dir.corruptWal == Some(w) }

  /** A database is in place or saved, forever. */
  lemma {:induction false} DatabaseIsNeverLost(s: State, run: seq<Step>, f: File)
    requires KeepsDb(s.dir, f)
    ensures KeepsDb(After(s, run).dir, f)
    decreases |run|
  {
    if run != [] {
      DatabaseIsNeverLost(Do(s, run[0]), run[1..], f);
    }
  }

  /** The step takes away this very `-wal`, rather than some other database's. */
  predicate Removes(s: State, step: Step, w: File) {
    s.dir.wal == Some(w) && step.Sqlite? && step.wal.Remove? && CanUse(s, step.p)
  }

  ghost predicate NeverRemoves(s: State, run: seq<Step>, w: File)
    decreases |run|
  {
    run == [] || (!Removes(s, run[0], w) && NeverRemoves(Do(s, run[0]), run[1..], w))
  }

  /**
   * A `-wal` is in place or saved until SQLite itself removes it, however many other logs
   * are made and removed meanwhile.
   */
  lemma {:induction false} WalIsNeverLost(s: State, run: seq<Step>, w: File)
    requires KeepsWal(s.dir, w) && NeverRemoves(s, run, w)
    ensures KeepsWal(After(s, run).dir, w)
    decreases |run|
  {
    if run != [] {
      WalIsNeverLost(Do(s, run[0]), run[1..], w);
    }
  }

  /** And that never happens while a reset is under way: nobody else has the database open. */
  lemma ResetIsAlone(s: State, p: Pid, step: Step)
    requires Reachable(s) && Resetting(PcOf(s, p)) && step.Sqlite?
    ensures Do(s, step) == s
  {
    ReachableInv(s);
  }

  /**
   * Wherever a reset was interrupted, a missing database leaves no `-wal` behind: a new
   * database is never created beside an old one's.
   */
  lemma NewDatabaseStartsWithoutWal(s: State, p: Pid)
    requires Reachable(s)
    ensures s.dir.db.None? ==> s.dir.wal.None?
    ensures Do(s, CreateOrOpen(p)).dir != s.dir ==>
              s.dir.db.None? && Do(s, CreateOrOpen(p)).dir.wal.None?
  {
    ReachableInv(s);
  }

  /** The saved pair belongs together, even when it was saved by different attempts. */
  lemma SavedPairBelongsTogether(s: State)
    requires Reachable(s) && s.dir.corrupt.Some? && s.dir.corruptWal.Some?
    ensures s.dir.corruptWal.value in s.owner && s.owner[s.dir.corruptWal.value] == s.dir.corrupt.value
  {
    ReachableInv(s);
  }

  /** The directory after a whole reset and the open that follows it. */
  function ResetDir(dir: Dir, made: File): Dir {
    Dir(Some(made), None, None, dir.db, if dir.wal.Some? then dir.wal else dir.corruptWal)
  }

  /** Nothing has to give way. */
  predicate CanReset(dir: Dir) { dir.corrupt.None? && (dir.wal.None? || dir.corruptWal.None?) }

  /** Process `p` is alone at work, at `pc`, with these files. */
  ghost predicate AloneAt(s: State, p: Pid, pc: Pc, dir: Dir, next: File) {
    && s.dir == dir && s.next == next && PcOf(s, p) == pc
    && forall q :: q in s.pcs && q != p ==> !HoldsExclusive(s.pcs[q]) && !HoldsShared(s.pcs[q])
  }

  lemma MovesAside(s: State, p: Pid, dir: Dir, next: File)
    requires AloneAt(s, p, FoundCorrupt, dir, next) && CanReset(dir)
    ensures var moved := Do(Do(Do(Do(s, LockForReset(p)), LookForEarlier(p)), MoveWal(p)), MoveDb(p));
            AloneAt(moved, p, ShmNext, ResetDir(dir, next).(db := None, shm := dir.shm), next)
  {
    var looked := Do(Do(s, LockForReset(p)), LookForEarlier(p));
    assert AloneAt(looked, p, WalNext, dir, next);
    var walMoved := Do(looked, MoveWal(p));
    assert AloneAt(walMoved, p, DbNext, ResetDir(dir, next).(db := dir.db, shm := dir.shm, corrupt := None), next);
  }

  lemma Reopens(s: State, p: Pid, dir: Dir, next: File)
    requires AloneAt(s, p, ShmNext, dir, next) && dir.db.None?
    ensures var left := Do(Do(s, DropShm(p)), SyncAndReopen(p));
            var reopened := Do(Do(left, LockForOpen(p)), CreateOrOpen(p));
            AloneAt(reopened, p, Checking, dir.(db := Some(next), shm := None), next + 1)
  {
    var left := Do(Do(s, DropShm(p)), SyncAndReopen(p));
    assert AloneAt(left, p, Outside, dir.(shm := None), next);
    var locked := Do(left, LockForOpen(p));
    assert AloneAt(locked, p, Opening, dir.(shm := None), next);
  }

  /** A process that is not interrupted gets from a corrupt database to a new one. */
  lemma UninterruptedReset(s: State, p: Pid)
    requires PcOf(s, p).FoundCorrupt? && NobodyHolds(s) && CanReset(s.dir)
    ensures var moved := Do(Do(Do(Do(s, LockForReset(p)), LookForEarlier(p)), MoveWal(p)), MoveDb(p));
            var left := Do(Do(moved, DropShm(p)), SyncAndReopen(p));
            var reopened := Do(Do(left, LockForOpen(p)), CreateOrOpen(p));
            reopened.dir == ResetDir(s.dir, s.next) && PcOf(reopened, p).Checking?
  {
    var moved := Do(Do(Do(Do(s, LockForReset(p)), LookForEarlier(p)), MoveWal(p)), MoveDb(p));
    assert AloneAt(s, p, FoundCorrupt, s.dir, s.next);
    MovesAside(s, p, s.dir, s.next);
    Reopens(moved, p, ResetDir(s.dir, s.next).(db := None, shm := s.dir.shm), s.next);
  }

  // ---- The `-shm` of a database that was moved aside ------------------------------------------------

  ghost predicate AtShm(s: State) { exists p :: p in s.pcs && s.pcs[p].ShmNext? }

  /** Where the database is missing, its `-shm` is too, or a reset is about to delete it. */
  ghost predicate ShmGoes(s: State) { s.dir.db.None? && s.dir.shm.Some? ==> AtShm(s) }

  /** A reset ends between moving the database and deleting its `-shm`. */
  predicate EndsBeforeShm(s: State, step: Step) {
    step.Leave? && PcOf(s, step.p).ShmNext? && s.dir.shm.Some?
  }

  ghost predicate SomeEndsBeforeShm(s: State, run: seq<Step>)
    decreases |run|
  {
    run != [] && (EndsBeforeShm(s, run[0]) || SomeEndsBeforeShm(Do(s, run[0]), run[1..]))
  }

  /** A copy is saved, nobody moves files any more, and the `-shm` waits for a new database. */
  ghost predicate ShmLeft(s: State) {
    && s.dir.corrupt.Some?
    && (s.dir.db.None? ==> s.dir.shm.Some?)
    && forall p :: p in s.pcs ==> s.pcs[p].ResetLocked? || !Resetting(s.pcs[p])
  }

  lemma ShmStillGoes(s: State, step: Step)
    requires Inv(s) && ShmGoes(s) && !EndsBeforeShm(s, step)
    ensures ShmGoes(Do(s, step))
  {
    var t := Do(s, step);
    if t.dir.db.None? && t.dir.shm.Some? {
      if step.MoveDb? && PcOf(s, step.p).DbNext? {
        assert t.pcs[step.p].ShmNext?;
      } else {
        var q :| q in s.pcs && s.pcs[q].ShmNext?;
        assert q in t.pcs && t.pcs[q].ShmNext?;
      }
    }
  }

  lemma ShmIsLeft(s: State, step: Step)
    requires Inv(s) && EndsBeforeShm(s, step)
    ensures ShmLeft(Do(s, step))
  {
    forall q | q in s.pcs && q != step.p
      ensures !Resetting(s.pcs[q])
    {
      assert HoldsExclusive(s.pcs[step.p]);
    }
  }

  lemma ShmStaysLeft(s: State, step: Step)
    requires ShmLeft(s)
    ensures ShmLeft(Do(s, step))
  {
  }

  lemma {:induction false} ShmLeftInRuns(s: State, run: seq<Step>)
    requires ShmLeft(s)
    ensures ShmLeft(After(s, run))
    decreases |run|
  {
    if run != [] {
      ShmStaysLeft(s, run[0]);
      ShmLeftInRuns(Do(s, run[0]), run[1..]);
    }
  }

  lemma {:induction false} ShmLeftExactly(s: State, run: seq<Step>)
    requires Inv(s) && ShmGoes(s)
    ensures if SomeEndsBeforeShm(s, run) then ShmLeft(After(s, run)) else ShmGoes(After(s, run))
    decreases |run|
  {
    if run != [] {
      StepKeepsInv(s, run[0]);
      if EndsBeforeShm(s, run[0]) {
        ShmIsLeft(s, run[0]);
        ShmLeftInRuns(Do(s, run[0]), run[1..]);
      } else {
        ShmStillGoes(s, run[0]);
        ShmLeftExactly(Do(s, run[0]), run[1..]);
      }
    }
  }

  /**
   * From a directory without a stray `-shm`, a new database is created beside an old one's
   * exactly if some reset ended between moving that database and deleting its `-shm`.
   */
  lemma NewDatabaseBesideShmExactly(start: State, run: seq<Step>, p: Pid)
    requires Start(start) && (start.dir.db.None? ==> start.dir.shm.None?)
    requires PcOf(After(start, run), p).Opening? && After(start, run).dir.db.None?
    ensures var made := Do(After(start, run), CreateOrOpen(p));
            made.dir.db.Some? && (made.dir.shm.Some? <==> SomeEndsBeforeShm(start, run))
  {
    RunKeepsInv(start, run);
    ShmLeftExactly(start, run);
  }

  lemma OpensBesideShm(s: State, p: Pid, dir: Dir, next: File)
    requires AloneAt(s, p, ShmNext, dir, next) && dir.db.None?
    ensures Do(Do(Do(s, Leave(p)), LockForOpen(p)), CreateOrOpen(p)).dir == dir.(db := Some(next))
  {
    var left := Do(s, Leave(p));
    assert AloneAt(left, p, Outside, dir, next);
    assert AloneAt(Do(left, LockForOpen(p)), p, Opening, dir, next);
  }

  /** A reset crashes there, and the next open makes a new database beside the `-shm`. */
  lemma CrashedReset(s: State, p: Pid, dir: Dir, next: File)
    requires AloneAt(s, p, FoundCorrupt, dir, next) && CanReset(dir)
    ensures var moved := Do(Do(Do(Do(s, LockForReset(p)), LookForEarlier(p)), MoveWal(p)), MoveDb(p));
            var reopened := Do(Do(Do(moved, Leave(p)), LockForOpen(p)), CreateOrOpen(p));
            reopened.dir == ResetDir(dir, next).(shm := dir.shm)
  {
    var moved := Do(Do(Do(Do(s, LockForReset(p)), LookForEarlier(p)), MoveWal(p)), MoveDb(p));
    MovesAside(s, p, dir, next);
    OpensBesideShm(moved, p, ResetDir(dir, next).(db := None, shm := dir.shm), next);
  }

  lemma FindsCorrupt(s: State, p: Pid)
    requires s.pcs == map[] && s.dir.db.Some?
    ensures var found := Do(Do(Do(s, LockForOpen(p)), CreateOrOpen(p)), FinishCheck(p, true));
            AloneAt(found, p, FoundCorrupt, s.dir, s.next)
  {
  }

  /** For one: database 0 with `-shm` 1 and no `-wal`; database 2 starts beside `-shm` 1. */
  lemma CrashedResetLeavesShm(start: State, p: Pid)
    requires start == State(Dir(Some(0), None, Some(1), None, None), map[], 2, map[])
    ensures var found := Do(Do(Do(start, LockForOpen(p)), CreateOrOpen(p)), FinishCheck(p, true));
            var moved := Do(Do(Do(Do(found, LockForReset(p)), LookForEarlier(p)), MoveWal(p)), MoveDb(p));
            var reopened := Do(Do(Do(moved, Leave(p)), LockForOpen(p)), CreateOrOpen(p));
            Start(start) && reopened.dir == Dir(Some(2), None, Some(1), Some(0), None)
  {
    FindsCorrupt(start, p);
    CrashedReset(Do(Do(Do(start, LockForOpen(p)), CreateOrOpen(p)), FinishCheck(p, true)), p, start.dir, 2);
  }

  // ---- The same reset on a directory ----------------------------------------------------------------------

  const DB := "honk.db"
  const WAL := "honk.db-wal"
  const SHM := "honk.db-shm"
  const CORRUPT := "honk.db.corrupt"
  const CORRUPT_WAL := "honk.db.corrupt-wal"

  datatype Errno = Done | NotFound | Exists

  datatype Outcome = InUse | KeptEarlier | Reopened

  function Lookup(entries: map<string, File>, name: string): Option<File> {
    if name in entries then Some(entries[name]) else None
  }

  /** The five names as the steps above see them. */
  function AsDir(entries: map<string, File>): Dir {
    Dir(Lookup(entries, DB), Lookup(entries, WAL), Lookup(entries, SHM),
        Lookup(entries, CORRUPT), Lookup(entries, CORRUPT_WAL))
  }

  /** A directory, changed one entry at a time. */
  class Directory {
    var entries: map<string, File>
    var made: File

    /** Never replaces the target. */
    method Rename(from: string, to: string) returns (r: Errno)
      requires from != to
      modifies this`entries
      ensures r.NotFound? <==> from !in old(entries)
      ensures r.Exists? <==> from in old(entries) && to in old(entries)
      ensures entries == if r.Done? then (old(entries) - {from})[to := old(entries)[from]] else old(entries)
    {
      if from !in entries {
        return NotFound;
      }
      if to in entries {
        return Exists;
      }
      entries := (entries - {from})[to := entries[from]];
      r := Done;
    }

    method Unlink(name: string)
      modifies this`entries
      ensures entries == old(entries) - {name}
    {
      entries := entries - {name};
    }

    method CreateExclusive(name: string) returns (r: Errno)
      modifies this
      ensures r == if name in old(entries) then Exists else Done
      ensures r.Exists? ==> entries == old(entries) && made == old(made)
      ensures r.Done? ==> entries == old(entries)[name := old(made)] && made == old(made) + 1
    {
      if name in entries {
        return Exists;
      }
      entries := entries[name := made];
      made := made + 1;
      r := Done;
    }

    /**
     * Moves a corrupt database and its `-wal` aside and starts a new one. Nothing changes
     * when somebody has the database open, or when an earlier copy would have to give way.
     */
    method ResetCorrupt(lockBusy: bool) returns (outcome: Outcome)
      modifies this
      ensures var before, after := AsDir(old(entries)), AsDir(entries);
              && outcome == (if lockBusy then InUse
                             else if CanReset(before) then Reopened else KeptEarlier)
              && (!outcome.Reopened? ==> entries == old(entries))
              && (outcome.Reopened? ==> after == ResetDir(before, old(made)))
    {
      if lockBusy {
        return InUse;
      }
      if CORRUPT in entries {
        return KeptEarlier;
      }
      var moved := Rename(WAL, CORRUPT_WAL);
      if moved.Exists? {
        return KeptEarlier;
      }
      var saved := Rename(DB, CORRUPT);
      if saved.Exists? {
        return KeptEarlier;
      }
      Unlink(SHM);
      var created := CreateExclusive(DB);
      outcome := Reopened;
    }
  }
}
