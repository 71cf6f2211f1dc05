/** What holds in every state that any interleaving of the processes can reach. */
module Safety {
  import opened Stores
  import opened Cells
  import opened Sums
  import opened Interleaving

  function HeldBy(m: Machine, g: nat): Proc -> nat {
    (p: Proc) => HeldIn(m, p.phase, g)
  }

  /** The process is between taking the lock for writing cell `i` and giving it back. */
  predicate Attends(p: Phase, i: nat) {
    (p.WriteKey? || p.WriteDeadline? || p.WriteValue? || p.WriteMark? || p.WriteLeave?) && p.i == i
  }

  ghost predicate Attended(procs: seq<Proc>, i: nat) {
    exists j :: 0 <= j < |procs| && Attends(procs[j].phase, i)
  }

  /** A record that was never written, or whose key, deadline and value come from one completed write. */
  predicate Whole(c: Cell, log: set<Write>) {
    if c.mark == Free then c == Blank else Write(c.key, c.deadline, c.value) in log
  }

  ghost predicate Written(log: set<Write>, value: Text) {
    exists w :: w in log && w.value == value
  }

  /** What a process may rely on about its cell: the fields it has copied so far, or that the cell is in use. */
  ghost predicate Relies(m: Machine, mem: Memory, p: Proc)
    requires MemoryOk(m, mem) && ProcOk(m, p)
  {
    var cells := mem.cells;
    match p.phase
    case WriteDeadline(i) => cells[i].key == p.todo[0].key
    case WriteValue(i, d) => cells[i].key == p.todo[0].key && cells[i].deadline == d
    case WriteMark(i, d) => cells[i].key == p.todo[0].key && cells[i].deadline == d && cells[i].value == p.todo[0].value
    case WriteLeave(i, d) => cells[i] == Cell(Filled, p.todo[0].key, d, p.todo[0].value)
    case ScanFound(Holder(_), h, k) => cells[m.Visit(h, k)].mark != Free
    case ReadWait(i) => cells[i].mark != Free
    case ReadCopy(i) => cells[i].mark != Free
    case ReadLeave(i, v) => Written(mem.log, v)
    case BuryWait(i) => cells[i].mark != Free
    case BuryMark(i) => cells[i].mark != Free
    case _ => true
  }

  ghost predicate Conserved(m: Machine, s: State, g: nat)
    requires g < |s.mem.free|
  {
    s.mem.free[g] + Sum(HeldBy(m, g), s.procs) == m.Permits()
  }

  ghost predicate Inv(m: Machine, s: State) {
    && MemoryOk(m, s.mem)
    && (forall j :: 0 <= j < |s.procs| ==> ProcOk(m, s.procs[j]) && Relies(m, s.mem, s.procs[j]))
    && (forall g :: 0 <= g < m.cfg.segments ==> Conserved(m, s, g))
    && (forall i :: 0 <= i < m.Size() ==> Whole(s.mem.cells[i], s.mem.log) || Attended(s.procs, i))
  }

  /** The zeroed table, full semaphores, and processes that have not begun. */
  ghost predicate Init(m: Machine, s: State) {
    && m.Ok()
    && |s.mem.cells| == m.Size() && (forall i :: 0 <= i < m.Size() ==> s.mem.cells[i] == Blank)
    && s.mem.free == m.cfg.AllPermits() && s.mem.log == {}
    && forall j :: 0 <= j < |s.procs| ==> s.procs[j].phase == Idle && s.procs[j].done == []
  }

  lemma InitInv(m: Machine, s: State)
    requires Init(m, s)
    ensures Inv(m, s)
  {
    forall g | 0 <= g < m.cfg.segments ensures Conserved(m, s, g) {
      SumPositive(HeldBy(m, g), s.procs);
    }
  }

  /** Who holds a segment for writing holds it alone. */
  lemma Alone(m: Machine, s: State, j: nat, k: nat)
    requires Inv(m, s) && j < |s.procs| && k < |s.procs| && j != k && Writes(s.procs[j].phase)
    requires Reads(s.procs[k].phase) || Writes(s.procs[k].phase)
    ensures SegmentHeld(m, s.procs[j].phase) != SegmentHeld(m, s.procs[k].phase)
  {
    var g := SegmentHeld(m, s.procs[j].phase);
    HeldInRange(m, s.procs[j]);
    assert Conserved(m, s, g);
    SumPair(HeldBy(m, g), s.procs, if j < k then j else k, if j < k then k else j);
  }

  lemma StepInv(m: Machine, s: State, j: nat, now: int, s': State)
    requires Inv(m, s) && Steps(m, s, j, now, s')
    ensures Inv(m, s')
  {
    StepLocal(m, now, s.mem, s.procs[j]);
    forall g | 0 <= g < m.cfg.segments ensures Conserved(m, s', g) {
      assert Conserved(m, s, g);
      StepConserves(m, now, s.mem, s.procs[j], g);
      SumUpdate(HeldBy(m, g), s.procs, j, s'.procs[j]);
    }
    forall k | 0 <= k < |s.procs| ensures ProcOk(m, s'.procs[k]) && Relies(m, s'.mem, s'.procs[k]) {
      if k == j {
        OwnStep(m, s, j, now, s');
      } else {
        OtherStep(m, s, j, now, s', k);
      }
    }
    forall i | 0 <= i < m.Size() ensures Whole(s'.mem.cells[i], s'.mem.log) || Attended(s'.procs, i) {
      WholeStep(m, s, j, now, s', i);
    }
  }

  /** The process that steps can rely on what it needs next. */
  lemma OwnStep(m: Machine, s: State, j: nat, now: int, s': State)
    requires Inv(m, s) && Steps(m, s, j, now, s')
    ensures MemoryOk(m, s'.mem) && ProcOk(m, s'.procs[j]) && Relies(m, s'.mem, s'.procs[j])
  {
    StepLocal(m, now, s.mem, s.procs[j]);
    var p := s.procs[j];
    if Reads(p.phase) || Writes(p.phase) {
      if !Leaving(p.phase) {
        if p.phase.ReadCopy? {
          CopiesWhole(m, s, j);
        }
        OwnWork(m, now, s.mem, p);
      }
    }
  }

  lemma OwnWork(m: Machine, now: int, mem: Memory, p: Proc)
    requires MemoryOk(m, mem) && ProcOk(m, p) && Relies(m, mem, p)
    requires (Reads(p.phase) || Writes(p.phase)) && !Leaving(p.phase)
    requires p.phase.ReadCopy? ==> Written(mem.log, mem.cells[p.phase.i].value)
    ensures var move := StepProc(m, now, mem, p);
            move.Moved? && MemoryOk(m, move.mem) && ProcOk(m, move.proc) && Relies(m, move.mem, move.proc)
  {
    WorkLocal(m, now, mem, p.todo[0], p.phase);
  }

  /** A value is copied from a record that no one is writing. */
  lemma CopiesWhole(m: Machine, s: State, j: nat)
    requires Inv(m, s) && j < |s.procs| && s.procs[j].phase.ReadCopy?
    ensures Written(s.mem.log, s.mem.cells[s.procs[j].phase.i].value)
  {
    var i := s.procs[j].phase.i;
    if Attended(s.procs, i) {
      var k :| 0 <= k < |s.procs| && Attends(s.procs[k].phase, i);
      Alone(m, s, k, j);
      assert false;
    }
    var c := s.mem.cells[i];
    assert Write(c.key, c.deadline, c.value) in s.mem.log;
  }

  /** A step of one process takes nothing away that another relies on. */
  lemma OtherStep(m: Machine, s: State, j: nat, now: int, s': State, k: nat)
    requires Inv(m, s) && Steps(m, s, j, now, s') && k < |s.procs| && k != j
    ensures MemoryOk(m, s'.mem) && ProcOk(m, s'.procs[k]) && Relies(m, s'.mem, s'.procs[k])
  {
    StepLocal(m, now, s.mem, s.procs[j]);
    var q := s.procs[k];
    if Writes(q.phase) && Writes(s.procs[j].phase) {
      Alone(m, s, j, k);
    }
    if q.phase.ReadLeave? {
      var w :| w in s.mem.log && w.value == q.phase.value;
      assert w in s'.mem.log;
    }
  }

  lemma WholeStep(m: Machine, s: State, j: nat, now: int, s': State, i: nat)
    requires Inv(m, s) && Steps(m, s, j, now, s') && i < m.Size()
    ensures |s'.mem.cells| == m.Size()
    ensures Whole(s'.mem.cells[i], s'.mem.log) || Attended(s'.procs, i)
  {
    StepLocal(m, now, s.mem, s.procs[j]);
    var p := s.procs[j];
    if k :| 0 <= k < |s.procs| && k != j && Attends(s.procs[k].phase, i) {
      assert Attends(s'.procs[k].phase, i);
    } else if Attends(p.phase, i) {
      if !p.phase.WriteLeave? {
        assert Attends(s'.procs[j].phase, i);
      }
    } else {
      assert Whole(s.mem.cells[i], s.mem.log);
      if s'.mem.cells[i] != s.mem.cells[i] {
        assert p.phase.BuryMark? || p.phase.SweepLook?;
      }
    }
  }

  // What finished operations report.

  predicate IsWrite(o: Outcome, w: Write) {
    o.op.OpSet? && o.op.key == w.key && o.op.value == w.value && o.reply == Done && o.number == w.deadline
  }

  ghost predicate Completed(procs: seq<Proc>, w: Write) {
    exists j, q :: 0 <= j < |procs| && 0 <= q < |procs[j].done| && IsWrite(procs[j].done[q], w)
  }

  /** The log holds exactly what completed sets wrote, and gets report only values found in it. */
  ghost predicate History(s: State) {
    && (forall w :: w in s.mem.log ==> Completed(s.procs, w))
    && (forall j, q :: 0 <= j < |s.procs| && 0 <= q < |s.procs[j].done| ==> Reported(s.procs[j].done[q], s.mem.log))
  }

  ghost predicate Reported(o: Outcome, log: set<Write>) {
    o.op.OpGet? ==> o.reply == Fail || (o.reply.Value? && Written(log, o.reply.value))
  }

  lemma StepDone(m: Machine, s: State, j: nat, now: int, s': State)
    requires Inv(m, s) && Steps(m, s, j, now, s')
    ensures var p, p' := s.procs[j], s'.procs[j];
            || (p'.done == p.done && s'.mem.log == s.mem.log)
            || (p.todo != [] && p'.done == p.done + [p'.done[|p.done|]] && Reported(p'.done[|p.done|], s'.mem.log)
                && forall w :: w in s'.mem.log && w !in s.mem.log ==> IsWrite(p'.done[|p.done|], w))
  {
    StepLocal(m, now, s.mem, s.procs[j]);
  }

  lemma StepHistory(m: Machine, s: State, j: nat, now: int, s': State)
    requires Inv(m, s) && History(s) && Steps(m, s, j, now, s')
    ensures History(s')
  {
    StepDone(m, s, j, now, s');
    StepLocal(m, now, s.mem, s.procs[j]);
    forall k, q | 0 <= k < |s'.procs| && 0 <= q < |s'.procs[k].done|
      ensures Reported(s'.procs[k].done[q], s'.mem.log)
    {
      if k != j || q < |s.procs[j].done| {
        var o := s.procs[k].done[q];
        assert s'.procs[k].done[q] == o && Reported(o, s.mem.log);
        if o.op.OpGet? && o.reply.Value? {
          var w :| w in s.mem.log && w.value == o.reply.value;
          assert w in s'.mem.log;
        }
      }
    }
    forall w | w in s'.mem.log ensures Completed(s'.procs, w) {
      if w in s.mem.log {
        var k, q :| 0 <= k < |s.procs| && 0 <= q < |s.procs[k].done| && IsWrite(s.procs[k].done[q], w);
        assert IsWrite(s'.procs[k].done[q], w);
      } else {
        assert IsWrite(s'.procs[j].done[|s.procs[j].done|], w);
      }
    }
  }

  // Runs.

  ghost predicate Step(m: Machine, s: State, s': State) {
    exists j, now :: Steps(m, s, j, now, s')
  }

  ghost predicate Run(m: Machine, run: seq<State>) {
    && run != [] && Init(m, run[0])
    && forall t :: 0 <= t < |run| - 1 ==> Step(m, run[t], run[t + 1])
  }

  lemma {:induction false} RunInv(m: Machine, run: seq<State>, t: nat)
    requires Run(m, run) && t < |run|
    ensures Inv(m, run[t]) && History(run[t]) && |run[t].procs| == |run[0].procs|
  {
    if t == 0 {
      InitInv(m, run[0]);
    } else {
      var j, now := RunStep(m, run, t - 1);
      RunInv(m, run, t - 1);
      StepInv(m, run[t - 1], j, now, run[t]);
      StepHistory(m, run[t - 1], j, now, run[t]);
    }
  }

  /** The process and clock of the `t`-th step. */
  lemma RunStep(m: Machine, run: seq<State>, t: nat) returns (j: nat, now: int)
    requires Run(m, run) && t + 1 < |run|
    ensures Steps(m, run[t], j, now, run[t + 1])
  {
    assert Step(m, run[t], run[t + 1]);
    j, now :| Steps(m, run[t], j, now, run[t + 1]);
  }

  /** Whenever the lock of a segment is free, each of its records was never written or holds a key,
      deadline and value that one completed set wrote together. */
  lemma UnlockedWhole(m: Machine, run: seq<State>, t: nat, i: nat)
    requires Run(m, run) && t < |run| && i < m.Size()
    ensures var s := run[t];
            && |s.mem.cells| == m.Size() && m.Segment(i) < |s.mem.free|
            && (s.mem.free[m.Segment(i)] == m.Permits() ==>
                  || s.mem.cells[i] == Blank
                  || (s.mem.cells[i].mark != Free
                      && Completed(s.procs, Write(s.mem.cells[i].key, s.mem.cells[i].deadline, s.mem.cells[i].value))))
  {
    RunInv(m, run, t);
    var s, g := run[t], m.Segment(i);
    m.InRange(i);
    if s.mem.free[g] == m.Permits() {
      assert Conserved(m, s, g);
      if Attended(s.procs, i) {
        var j :| 0 <= j < |s.procs| && Attends(s.procs[j].phase, i);
        SumPart(HeldBy(m, g), s.procs, j);
        assert false;
      }
      assert Whole(s.mem.cells[i], s.mem.log);
    }
  }

  /** A get that succeeds reports the whole value of some completed set. */
  lemma GetReportsSet(m: Machine, run: seq<State>, t: nat, j: nat, q: nat)
    requires Run(m, run) && t < |run|
    requires j < |run[t].procs| && q < |run[t].procs[j].done|
    requires run[t].procs[j].done[q].op.OpGet? && run[t].procs[j].done[q].reply != Fail
    ensures exists w :: Completed(run[t].procs, w) && run[t].procs[j].done[q].reply == Value(w.value)
  {
    RunInv(m, run, t);
    var o := run[t].procs[j].done[q];
    assert Reported(o, run[t].mem.log);
    var w :| w in run[t].mem.log && w.value == o.reply.value;
    assert Completed(run[t].procs, w);
  }

  /** A cell once used is never free again. */
  lemma {:induction false} NeverFreeAgain(m: Machine, run: seq<State>, t: nat, u: nat, i: nat)
    requires Run(m, run) && t <= u < |run| && i < m.Size()
    ensures |run[t].mem.cells| == |run[u].mem.cells| == m.Size()
    ensures run[t].mem.cells[i].mark != Free ==> run[u].mem.cells[i].mark != Free
    decreases u - t
  {
    RunInv(m, run, t);
    if t < u {
      NeverFreeAgain(m, run, t, u - 1, i);
      var j, now := RunStep(m, run, u - 1);
      StepLocal(m, now, run[u - 1].mem, run[u - 1].procs[j]);
    }
  }

  // The semaphore as a reader/writer lock.

  function ReadsIn(m: Machine, g: nat): Proc -> nat {
    (p: Proc) => if Reads(p.phase) && SegmentHeld(m, p.phase) == g then 1 else 0
  }

  function WritesIn(m: Machine, g: nat): Proc -> nat {
    (p: Proc) => if Writes(p.phase) && SegmentHeld(m, p.phase) == g then 1 else 0
  }

  lemma {:induction false} HeldSplits(m: Machine, g: nat, procs: seq<Proc>)
    ensures Sum(HeldBy(m, g), procs) == Sum(ReadsIn(m, g), procs) + m.Permits() * Sum(WritesIn(m, g), procs)
  {
    if procs != [] {
      HeldSplits(m, g, procs[..|procs| - 1]);
      var w := Sum(WritesIn(m, g), procs[..|procs| - 1]);
      assert m.Permits() * (w + 1) == m.Permits() * w + m.Permits();
    }
  }

  /** Free permits, readers and `permits` times the writers of a segment always add up to `permits`. */
  lemma PermitsAddUp(m: Machine, run: seq<State>, t: nat, g: nat)
    requires Run(m, run) && t < |run| && g < m.cfg.segments
    ensures var s := run[t];
            |s.mem.free| == m.cfg.segments &&
            s.mem.free[g] + Sum(ReadsIn(m, g), s.procs) + m.Permits() * Sum(WritesIn(m, g), s.procs) == m.Permits()
  {
    RunInv(m, run, t);
    assert Conserved(m, run[t], g);
    HeldSplits(m, g, run[t].procs);
  }

  /** A writer shares its segment with nobody. */
  lemma WriterAlone(m: Machine, run: seq<State>, t: nat, j: nat, k: nat)
    requires Run(m, run) && t < |run| && j < |run[t].procs| && k < |run[t].procs| && j != k
    requires Writes(run[t].procs[j].phase) && (Reads(run[t].procs[k].phase) || Writes(run[t].procs[k].phase))
    ensures SegmentHeld(m, run[t].procs[j].phase) != SegmentHeld(m, run[t].procs[k].phase)
  {
    RunInv(m, run, t);
    Alone(m, run[t], j, k);
  }

  /** With no more processes than permits, a reader has to wait only for a writer. */
  lemma ReaderWaitsForWriter(m: Machine, run: seq<State>, t: nat, j: nat)
    requires Run(m, run) && t < |run| && j < |run[t].procs| <= m.Permits()
    requires run[t].procs[j].phase.ScanWait? || run[t].procs[j].phase.ReadWait?
    requires var g := SegmentWanted(m, run[t].procs[j].phase); g < |run[t].mem.free| ==> run[t].mem.free[g] == 0
    ensures Sum(WritesIn(m, SegmentWanted(m, run[t].procs[j].phase)), run[t].procs) == 1
  {
    RunInv(m, run, t);
    var g, procs := SegmentWanted(m, run[t].procs[j].phase), run[t].procs;
    WantedInRange(m, procs[j]);
    PermitsAddUp(m, run, t, g);
    SumBelow(ReadsIn(m, g), procs, j);
    var w := Sum(WritesIn(m, g), procs);
    if w > 1 {
      Scale(2, w, m.Permits());
    }
  }
}
