/** No interleaving gets stuck, none goes on forever, and none locks more than it needs. */
module Progress {
  import opened Cells
  import opened Sums
  import opened Interleaving
  import opened Safety

  // Every step uses up work.

  /** Steps a process can still make on its operation, at most. */
  function Left(m: Machine, p: Phase): nat {
    var n := m.Size();
    match p
    case Idle => 0
    case ScanWait(goal, _, k, _) => Base(m, goal) + 3 * (if k < n then n - k else 0)
    case ScanLook(goal, _, k, _) => Base(m, goal) + 3 * (if k < n then n - k else 0) - 1
    case ScanLeave(goal, _, k, _) => Base(m, goal) + 3 * (if k < n then n - k else 0) + 1
    case ScanFound(_, _, _) => 7
    case ReadWait(_) => 3
    case ReadCopy(_) => 2
    case ReadLeave(_, _) => 1
    case WriteWait(_) => 6
    case WriteKey(_) => 5
    case WriteDeadline(_) => 4
    case WriteValue(_, _) => 3
    case WriteMark(_, _) => 2
    case WriteLeave(_, _) => 1
    case BuryWait(_) => 3
    case BuryMark(_) => 2
    case BuryLeave(_) => 1
    case SweepWait(i, _) => 3 * (if i < n then n - i else 0) + 1
    case SweepLook(i, _) => 3 * (if i < n then n - i else 0)
    case SweepLeave(i, _) => 3 * (if i < n then n - i else 0) + 2
  }

  function Base(m: Machine, goal: Goal): nat {
    if goal.Vacant? then 7 else 8 + 3 * m.Size()
  }

  /** More than any operation needs from its beginning. */
  function OpWork(m: Machine): nat {
    9 + 6 * m.Size()
  }

  /** Steps a process can still make, at most. */
  function Effort(m: Machine): Proc -> nat {
    (p: Proc) => if p.phase.Idle? then Product(|p.todo|, OpWork(m))
                 else Left(m, p.phase) + Product(if p.todo == [] then 0 else |p.todo| - 1, OpWork(m))
  }

  lemma WorkFalls(m: Machine, now: int, mem: Memory, op: Op, p: Phase)
    requires MemoryOk(m, mem) && PhaseOk(m, p, op) && !Leaving(p) && (Reads(p) || Writes(p))
    ensures Left(m, Work(m, now, mem, op, p).1) < Left(m, p)
  {
  }

  lemma ReleasedFalls(m: Machine, p: Proc)
    requires m.Ok() && ProcOk(m, p) && !p.phase.Idle? && Leaving(p.phase)
    ensures var p' := Released(m, p);
            Left(m, p'.phase) < Left(m, p.phase)
              && (if p'.phase.Idle? then p'.todo == p.todo[1..] else p'.todo == p.todo)
  {
  }

  lemma StepFalls(m: Machine, now: int, mem: Memory, p: Proc)
    requires MemoryOk(m, mem) && ProcOk(m, p) && StepProc(m, now, mem, p).Moved?
    ensures Effort(m)(StepProc(m, now, mem, p).proc) < Effort(m)(p)
  {
    WantedInRange(m, p);
    HeldInRange(m, p);
    m.InRange(0);
    if p.phase.Idle? {
      assert Left(m, Begin(m, p).phase) < OpWork(m);
    } else if Waits(p.phase) {
    } else if Leaving(p.phase) {
      ReleasedFalls(m, p);
    } else {
      WorkFalls(m, now, mem, p.todo[0], p.phase);
    }
  }

  /** A run makes no more steps than the work that was there at its start. */
  lemma {:induction false} RunsEnd(m: Machine, run: seq<State>, t: nat)
    requires Run(m, run) && t < |run|
    ensures t + Sum(Effort(m), run[t].procs) <= Sum(Effort(m), run[0].procs)
  {
    if t > 0 {
      RunsEnd(m, run, t - 1);
      var j, now := RunStep(m, run, t - 1);
      var s := run[t - 1];
      StepFalls(m, now, s.mem, s.procs[j]);
      SumUpdate(Effort(m), s.procs, j, run[t].procs[j]);
    }
  }

  // Some process can always go on.

  predicate Finished(p: Proc) {
    p.phase.Idle? && p.todo == []
  }

  ghost predicate CanStep(m: Machine, s: State, j: nat, now: int)
    requires Inv(m, s)
  {
    j < |s.procs| && StepProc(m, now, s.mem, s.procs[j]).Moved?
  }

  /** A process that waits in vain waits for one that holds its segment, and that one can go on. */
  lemma NeverStuck(m: Machine, s: State, j: nat, now: int) returns (k: nat)
    requires Inv(m, s) && j < |s.procs| && !Finished(s.procs[j])
    ensures CanStep(m, s, k, now)
  {
    var p := s.procs[j];
    if StepProc(m, now, s.mem, p).Moved? {
      k := j;
    } else {
      var g := SegmentWanted(m, p.phase);
      WantedInRange(m, p);
      assert Conserved(m, s, g);
      SumPositive(HeldBy(m, g), s.procs);
      k :| 0 <= k < |s.procs| && HeldBy(m, g)(s.procs[k]) > 0;
      assert StepProc(m, now, s.mem, s.procs[k]).Moved?;
    }
  }

  /** Operations finished and to come, in order: they never change. */
  function Ops(done: seq<Outcome>): seq<Op> {
    if done == [] then [] else Ops(done[..|done| - 1]) + [done[|done| - 1].op]
  }

  lemma StepProgram(m: Machine, now: int, mem: Memory, p: Proc)
    requires MemoryOk(m, mem) && ProcOk(m, p) && StepProc(m, now, mem, p).Moved?
    ensures var p' := StepProc(m, now, mem, p).proc; Ops(p'.done) + p'.todo == Ops(p.done) + p.todo
  {
    WantedInRange(m, p);
    HeldInRange(m, p);
    var p' := StepProc(m, now, mem, p).proc;
    if p'.done != p.done {
      OpsGrow(p.done, p'.done[|p.done|], p.todo);
    }
  }

  lemma OpsGrow(done: seq<Outcome>, o: Outcome, todo: seq<Op>)
    requires todo != [] && o.op == todo[0]
    ensures Ops(done + [o]) + todo[1..] == Ops(done) + todo
  {
    assert (done + [o])[..|done|] == done;
    assert todo == [o.op] + todo[1..];
    assert Ops(done) + [o.op] + todo[1..] == Ops(done) + ([o.op] + todo[1..]);
  }

  lemma {:induction false} ProgramKept(m: Machine, run: seq<State>, t: nat, j: nat)
    requires Run(m, run) && t < |run| && j < |run[0].procs|
    ensures j < |run[t].procs| && Ops(run[t].procs[j].done) + run[t].procs[j].todo == run[0].procs[j].todo
  {
    if t > 0 {
      ProgramKept(m, run, t - 1, j);
      var k, now := RunStep(m, run, t - 1);
      StepProgram(m, now, run[t - 1].mem, run[t - 1].procs[k]);
    }
  }

  /** A run that cannot go on has completed every operation of every process, in program order, and
      left every semaphore at its initial value and every record whole. */
  lemma EndsComplete(m: Machine, run: seq<State>)
    requires Run(m, run)
    requires var s := run[|run| - 1]; forall j, now :: Inv(m, s) ==> !CanStep(m, s, j, now)
    ensures var s := run[|run| - 1];
            && |s.procs| == |run[0].procs|
            && (forall j :: 0 <= j < |s.procs| ==> Finished(s.procs[j]) && Ops(s.procs[j].done) == run[0].procs[j].todo)
            && s.mem.free == m.cfg.AllPermits()
            && |s.mem.cells| == m.Size() && forall i :: 0 <= i < m.Size() ==> Whole(s.mem.cells[i], s.mem.log)
  {
    var t := |run| - 1;
    var s := run[t];
    RunInv(m, run, t);
    forall j | 0 <= j < |s.procs| ensures Finished(s.procs[j]) && Ops(s.procs[j].done) == run[0].procs[j].todo {
      if !Finished(s.procs[j]) {
        var k := NeverStuck(m, s, j, 0);
        assert false;
      } else {
        ProgramKept(m, run, t, j);
      }
    }
    forall g | 0 <= g < m.cfg.segments ensures s.mem.free[g] == m.Permits() {
      assert Conserved(m, s, g);
      SumPositive(HeldBy(m, g), s.procs);
    }
    assert s.mem.free == m.cfg.AllPermits();
  }

  // How many locks a scan takes.

  /** Segments entered by a scan from cell `h` up to its `k`-th cell. */
  function Entered(m: Machine, h: nat, k: nat): int {
    var first := m.Segment(h);
    if h + k < m.Size() then m.Segment(h + k) - first + 1
    else m.cfg.segments - first + m.Segment(m.Visit(h, k)) + 1
  }

  ghost predicate LocksOk(m: Machine, p: Phase) {
    match p
    case ScanWait(_, h, k, locks) => locks < Entered(m, h, k)
    case ScanLook(_, h, k, locks) => locks <= Entered(m, h, k)
    case ScanLeave(_, h, k, locks) => k > 0 ==> locks <= Entered(m, h, k - 1)
    case _ => true
  }

  lemma EnteredGrows(m: Machine, h: nat, k: nat)
    requires m.Ok() && h < m.Size() && k + 1 < m.Size()
    ensures Entered(m, h, k) <= Entered(m, h, k + 1)
    ensures m.Segment(m.Visit(h, k)) != m.Segment(m.Visit(h, k + 1)) ==> Entered(m, h, k) < Entered(m, h, k + 1)
  {
    var n := m.Size();
    if h + k + 1 < n {
      m.cfg.SegmentStep(h + k);
    } else if h + k + 1 > n {
      m.cfg.SegmentStep(h + k - n);
    }
  }

  /** A scan enters at most one segment more than there are. */
  lemma EnteredBound(m: Machine, h: nat, k: nat)
    requires m.Ok() && h < m.Size() && k < m.Size()
    ensures Entered(m, h, k) <= m.cfg.segments + 1
  {
    if h + k >= m.Size() {
      m.cfg.SegmentMonotone(h + k - m.Size(), h);
    }
  }

  lemma StepLocks(m: Machine, now: int, mem: Memory, p: Proc)
    requires MemoryOk(m, mem) && ProcOk(m, p) && StepProc(m, now, mem, p).Moved? && LocksOk(m, p.phase)
    ensures LocksOk(m, StepProc(m, now, mem, p).proc.phase)
  {
    WantedInRange(m, p);
    HeldInRange(m, p);
    if p.phase.Idle? {
      if !p.todo[0].OpCollect? {
        FirstEntered(m, m.home(p.todo[0].key));
      }
    } else if Waits(p.phase) {
    } else if Leaving(p.phase) {
      ReleasedLocks(m, p);
    } else {
      WorkLocks(m, now, mem, p.todo[0], p.phase);
    }
  }

  lemma ReleasedLocks(m: Machine, p: Proc)
    requires m.Ok() && ProcOk(m, p) && !p.phase.Idle? && Leaving(p.phase) && LocksOk(m, p.phase)
    ensures LocksOk(m, Released(m, p).phase)
  {
    if p.phase.ScanLeave? {
      FirstEntered(m, p.phase.h);
      if p.phase.k < m.Size() {
        EnteredGrows(m, p.phase.h, p.phase.k - 1);
      }
    }
  }

  lemma WorkLocks(m: Machine, now: int, mem: Memory, op: Op, p: Phase)
    requires MemoryOk(m, mem) && PhaseOk(m, p, op) && !Leaving(p) && (Reads(p) || Writes(p)) && LocksOk(m, p)
    ensures LocksOk(m, Work(m, now, mem, op, p).1)
  {
    if p.ScanLook? && p.k + 1 < m.Size() {
      EnteredGrows(m, p.h, p.k);
    }
  }

  lemma FirstEntered(m: Machine, h: nat)
    requires m.Ok() && h < m.Size()
    ensures Entered(m, h, 0) == 1
  {
  }

  lemma {:induction false} ScanLocks(m: Machine, run: seq<State>, t: nat, j: nat)
    requires Run(m, run) && t < |run| && j < |run[0].procs|
    ensures j < |run[t].procs| && LocksOk(m, run[t].procs[j].phase)
  {
    if t > 0 {
      ScanLocks(m, run, t - 1, j);
      var k, now := RunStep(m, run, t - 1);
      if k == j {
        StepLocks(m, now, run[t - 1].mem, run[t - 1].procs[k]);
      }
    }
  }

  /** In every state of every run, a scan has locked at most one segment more than there are. */
  lemma LocksBounded(m: Machine, run: seq<State>, t: nat, j: nat)
    requires Run(m, run) && t < |run| && j < |run[0].procs|
    ensures j < |run[t].procs|
    ensures var p := run[t].procs[j].phase;
            p.ScanWait? || p.ScanLook? || p.ScanLeave? ==> p.locks <= m.cfg.segments + 1
  {
    RunInv(m, run, t);
    ScanLocks(m, run, t, j);
    var p := run[t].procs[j];
    assert ProcOk(m, p);
    if p.phase.ScanWait? || p.phase.ScanLook? {
      EnteredBound(m, p.phase.h, p.phase.k);
    } else if p.phase.ScanLeave? {
      EnteredBound(m, p.phase.h, p.phase.k - 1);
    }
  }
}
