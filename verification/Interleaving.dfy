/** The table with many processes at work: every lock, look, copy and unlock is a step of its own,
    and the steps of different processes interleave in any order. */
module Interleaving {
  import opened Bytes
  import opened Stores
  import opened Cells

  /** The table's sizes and options, and its hash function. */
  datatype Machine = Machine(cfg: Config, home: Text -> nat) {
    ghost predicate Ok() {
      cfg.Ok() && forall key :: home(key) < cfg.Size()
    }

    function Size(): nat { cfg.Size() }

    function Permits(): nat { cfg.permits }

    /** The segment of cell `i`; past the end of the table nobody asks. */
    function Segment(i: nat): nat {
      if cfg.Ok() && i < Size() then cfg.SegmentOf(i) else 0
    }

    /** The `k`-th cell of a scan from `h`. */
    function Visit(h: nat, k: nat): nat {
      if h < Size() && k < Size() then Probe(h, k, Size()) else 0
    }

    lemma InRange(i: nat)
      requires Ok()
      ensures Segment(i) < cfg.segments && Size() > 0
    {
      assert home([]) < cfg.Size();
    }
  }

  datatype Op =
    | OpGet(key: Text)
    | OpSet(key: Text, value: Text, ttl: int)
    | OpDel(key: Text)
    | OpCollect

  /** Where a process stands in its operation. `Wait` phases hold no lock and are about to take one;
      all other phases but `Idle` hold exactly one segment. */
  datatype Phase =
    | Idle
    // Scanning from cell h: about to lock for, look at, or move on to the k-th cell; or k is the one sought.
    | ScanWait(goal: Goal, h: nat, k: nat, locks: nat)
    | ScanLook(goal: Goal, h: nat, k: nat, locks: nat)
    | ScanLeave(goal: Goal, h: nat, k: nat, locks: nat)
    | ScanFound(goal: Goal, h: nat, k: nat)
    // Reading the value of cell i.
    | ReadWait(i: nat)
    | ReadCopy(i: nat)
    | ReadLeave(i: nat, value: Text)
    // Writing cell i, field by field.
    | WriteWait(i: nat)
    | WriteKey(i: nat)
    | WriteDeadline(i: nat)
    | WriteValue(i: nat, deadline: int)
    | WriteMark(i: nat, deadline: int)
    | WriteLeave(i: nat, deadline: int)
    // Burying cell i.
    | BuryWait(i: nat)
    | BuryMark(i: nat)
    | BuryLeave(i: nat)
    // Collecting garbage: about to lock for, look at, or move on to cell i.
    | SweepWait(i: nat, count: nat)
    | SweepLook(i: nat, count: nat)
    | SweepLeave(i: nat, count: nat)

  /** A finished operation; `number` is the deadline a `Set` stored or the count a collection made. */
  datatype Outcome = Outcome(op: Op, reply: Reply, number: int)

  /** A process: operations to come (the first is under way unless `Idle`) and operations finished. */
  datatype Proc = Proc(todo: seq<Op>, phase: Phase, done: seq<Outcome>)

  /** What a completed `Set` left in a record. */
  datatype Write = Write(key: Text, deadline: int, value: Text)

  /** The shared memory, the free permits of each segment, and the completed writes so far. */
  datatype Memory = Memory(cells: seq<Cell>, free: seq<nat>, log: set<Write>)

  datatype State = State(mem: Memory, procs: seq<Proc>)

  datatype Move = Blocked | Moved(mem: Memory, proc: Proc)

  // Which segment a phase holds, and how.

  function SegmentHeld(m: Machine, p: Phase): nat {
    match p
    case ScanLook(_, h, k, _) => m.Segment(m.Visit(h, k))
    case ScanLeave(_, h, k, _) => if k > 0 then m.Segment(m.Visit(h, k - 1)) else 0
    case ScanFound(_, h, k) => m.Segment(m.Visit(h, k))
    case ReadCopy(i) => m.Segment(i)
    case ReadLeave(i, _) => m.Segment(i)
    case WriteKey(i) => m.Segment(i)
    case WriteDeadline(i) => m.Segment(i)
    case WriteValue(i, _) => m.Segment(i)
    case WriteMark(i, _) => m.Segment(i)
    case WriteLeave(i, _) => m.Segment(i)
    case BuryMark(i) => m.Segment(i)
    case BuryLeave(i) => m.Segment(i)
    case SweepLook(i, _) => m.Segment(i)
    case SweepLeave(i, _) => if i > 0 then m.Segment(i - 1) else 0
    case _ => 0
  }

  predicate Waits(p: Phase) {
    p.ScanWait? || p.ReadWait? || p.WriteWait? || p.BuryWait? || p.SweepWait?
  }

  predicate Reads(p: Phase) {
    p.ScanLook? || p.ScanLeave? || p.ScanFound? || p.ReadCopy? || p.ReadLeave?
  }

  predicate Writes(p: Phase) {
    !p.Idle? && !Waits(p) && !Reads(p)
  }

  /** Permits of segment `g` that a process holds. */
  function HeldIn(m: Machine, p: Phase, g: nat): nat {
    if SegmentHeld(m, p) != g then 0
    else if Reads(p) then 1
    else if Writes(p) then m.Permits()
    else 0
  }

  // The steps.

  /** What `semop`/`sem_wait` needs and what a waiting process asks for. */
  function SegmentWanted(m: Machine, p: Phase): nat {
    match p
    case ScanWait(_, h, k, _) => m.Segment(m.Visit(h, k))
    case ReadWait(i) => m.Segment(i)
    case WriteWait(i) => m.Segment(i)
    case BuryWait(i) => m.Segment(i)
    case SweepWait(i, _) => m.Segment(i)
    case _ => 0
  }

  function PermitsWanted(m: Machine, p: Phase): nat {
    if p.ScanWait? || p.ReadWait? then 1 else m.Permits()
  }

  /** The phase that follows once the lock is taken. */
  function Admitted(p: Phase): Phase {
    match p
    case ScanWait(goal, h, k, locks) => ScanLook(goal, h, k, locks + 1)
    case ReadWait(i) => ReadCopy(i)
    case WriteWait(i) => WriteKey(i)
    case BuryWait(i) => BuryMark(i)
    case SweepWait(i, count) => SweepLook(i, count)
    case _ => p
  }

  function Finish(p: Proc, reply: Reply, number: int): Proc
    requires p.todo != []
  {
    Proc(p.todo[1..], Idle, p.done + [Outcome(p.todo[0], reply, number)])
  }

  /** Holding a lock: the next look, copy or mark. */
  function Work(m: Machine, now: int, mem: Memory, op: Op, p: Phase): (r: (seq<Cell>, Phase))
    requires PhaseOk(m, p, op) && |mem.cells| == m.Size() && !Leaving(p) && (Reads(p) || Writes(p))
  {
    var cells := mem.cells;
    match p
    case ScanLook(goal, h, k, locks) =>
      (cells,
       if Hit(cells[m.Visit(h, k)], goal) then ScanFound(goal, h, k)
       else if k + 1 < m.Size()
         && m.Segment(m.Visit(h, k + 1)) == m.Segment(m.Visit(h, k)) then ScanLook(goal, h, k + 1, locks)
       else ScanLeave(goal, h, k + 1, locks))
    case ReadCopy(i) => (cells, ReadLeave(i, cells[i].value))
    case WriteKey(i) =>
      (cells[i := cells[i].(key := op.key)], if m.cfg.deadlines then WriteDeadline(i) else WriteValue(i, 0))
    case WriteDeadline(i) =>
      var deadline := ToInt32(op.ttl + now);
      (cells[i := cells[i].(deadline := deadline)], WriteValue(i, deadline))
    case WriteValue(i, deadline) => (cells[i := cells[i].(value := op.value)], WriteMark(i, deadline))
    case WriteMark(i, deadline) => (cells[i := cells[i].(mark := Filled)], WriteLeave(i, deadline))
    case BuryMark(i) => (cells[i := cells[i].(mark := Rip)], BuryLeave(i))
    case SweepLook(i, count) =>
      var c := cells[i];
      var buries := c.deadline != 0 && ToInt32(now) > c.deadline && c.mark != Rip;
      var after := if buries then cells[i := c.(mark := Rip)] else cells;
      var count' := if buries then count + 1 else count;
      (after,
       if i + 1 < m.Size() && m.Segment(i + 1) == m.Segment(i) then SweepLook(i + 1, count')
         else SweepLeave(i + 1, count'))
  }

  predicate Leaving(p: Phase) {
    p.ScanLeave? || p.ScanFound? || p.ReadLeave? || p.WriteLeave? || p.BuryLeave? || p.SweepLeave?
  }

  /** The process once it has unlocked. */
  function Released(m: Machine, p: Proc): Proc
    requires p.todo != [] && Leaving(p.phase)
  {
    match p.phase
    case ScanLeave(goal, h, k, locks) =>
      if k < m.Size() then p.(phase := ScanWait(goal, h, k, locks))
      else if goal.Holder? && p.todo[0].OpSet? then p.(phase := ScanWait(Vacant, h, 0, 0))
      else Finish(p, Fail, 0)
    case ScanFound(goal, h, k) =>
      var i := m.Visit(h, k);
      p.(phase := match p.todo[0] case OpGet(_) => ReadWait(i) case OpSet(_, _, _) => WriteWait(i)
        case _ => BuryWait(i))
    case ReadLeave(_, value) => Finish(p, Value(value), 0)
    case WriteLeave(_, deadline) => Finish(p, Done, deadline)
    case BuryLeave(_) => Finish(p, Done, 0)
    case SweepLeave(i, count) =>
      if i < m.Size() then p.(phase := SweepWait(i, count)) else Finish(p, Done, count)
  }

  function Begin(m: Machine, p: Proc): Proc
    requires p.todo != []
  {
    p.(phase := if p.todo[0].OpCollect? then SweepWait(0, 0)
                else ScanWait(Holder(p.todo[0].key), m.home(p.todo[0].key), 0, 0))
  }

  /** Phase and operation belong together, and every index is in range. */
  ghost predicate PhaseOk(m: Machine, p: Phase, op: Op) {
    var n := m.Size();
    match p
    case Idle => true
    case ScanWait(goal, h, k, _) => ScanOk(m, goal, h, op) && k < n
    case ScanLook(goal, h, k, _) => ScanOk(m, goal, h, op) && k < n
    case ScanLeave(goal, h, k, _) =>
      ScanOk(m, goal, h, op) && 0 < k <= n && (k < n ==> m.Segment(m.Visit(h, k)) != m.Segment(m.Visit(h, k - 1)))
    case ScanFound(goal, h, k) => ScanOk(m, goal, h, op) && k < n
    case ReadWait(i) => op.OpGet? && i < n
    case ReadCopy(i) => op.OpGet? && i < n
    case ReadLeave(i, _) => op.OpGet? && i < n
    case WriteWait(i) => op.OpSet? && i < n
    case WriteKey(i) => op.OpSet? && i < n
    case WriteDeadline(i) => op.OpSet? && i < n && m.cfg.deadlines
    case WriteValue(i, _) => op.OpSet? && i < n
    case WriteMark(i, _) => op.OpSet? && i < n
    case WriteLeave(i, _) => op.OpSet? && i < n
    case BuryWait(i) => op.OpDel? && i < n
    case BuryMark(i) => op.OpDel? && i < n
    case BuryLeave(i) => op.OpDel? && i < n
    case SweepWait(i, _) => op.OpCollect? && i < n
    case SweepLook(i, _) => op.OpCollect? && i < n
    case SweepLeave(i, _) => op.OpCollect? && 0 < i <= n
  }

  ghost predicate ScanOk(m: Machine, goal: Goal, h: nat, op: Op) {
    && !op.OpCollect? && h == m.home(op.key) && h < m.Size()
    && (goal == Holder(op.key) || (goal == Vacant && op.OpSet?))
  }

  ghost predicate ProcOk(m: Machine, p: Proc) {
    p.phase.Idle? || (p.todo != [] && PhaseOk(m, p.phase, p.todo[0]))
  }

  ghost predicate MemoryOk(m: Machine, mem: Memory) {
    && m.Ok() && |mem.cells| == m.Size() && |mem.free| == m.cfg.segments
    && (!m.cfg.deadlines ==> forall i :: 0 <= i < |mem.cells| ==> mem.cells[i].deadline == 0)
  }

  /** The one step a process can make, or `Blocked` if it waits for permits or has nothing to do. */
  ghost function StepProc(m: Machine, now: int, mem: Memory, p: Proc): Move
    requires MemoryOk(m, mem) && ProcOk(m, p)
  {
    if p.phase.Idle? then
      if p.todo == [] then Blocked else Moved(mem, Begin(m, p))
    else if Waits(p.phase) then
      var g, w := SegmentWanted(m, p.phase), PermitsWanted(m, p.phase);
      WantedInRange(m, p);
      if mem.free[g] < w then Blocked
      else Moved(mem.(free := mem.free[g := mem.free[g] - w]), p.(phase := Admitted(p.phase)))
    else if Leaving(p.phase) then
      var g := SegmentHeld(m, p.phase);
      HeldInRange(m, p);
      var log := if p.phase.WriteLeave? then {Write(p.todo[0].key, p.phase.deadline, p.todo[0].value)} else {};
      Moved(Memory(mem.cells, mem.free[g := mem.free[g] + HeldIn(m, p.phase, g)], mem.log + log), Released(m, p))
    else
      var (cells, phase) := Work(m, now, mem, p.todo[0], p.phase);
      Moved(mem.(cells := cells), p.(phase := phase))
  }

  lemma WantedInRange(m: Machine, p: Proc)
    requires m.Ok()
    ensures SegmentWanted(m, p.phase) < m.cfg.segments
  {
    match p.phase
    case ScanWait(_, h, k, _) => m.InRange(m.Visit(h, k));
    case ReadWait(i) => m.InRange(i);
    case WriteWait(i) => m.InRange(i);
    case BuryWait(i) => m.InRange(i);
    case SweepWait(i, _) => m.InRange(i);
    case _ =>
  }

  lemma HeldInRange(m: Machine, p: Proc)
    requires m.Ok()
    ensures SegmentHeld(m, p.phase) < m.cfg.segments
  {
    forall i: nat ensures m.Segment(i) < m.cfg.segments { m.InRange(i); }
  }

  /** Process `j` makes a step while the clock shows `now`. */
  ghost predicate Steps(m: Machine, s: State, j: nat, now: int, s': State) {
    && MemoryOk(m, s.mem) && j < |s.procs| && ProcOk(m, s.procs[j])
    && var move := StepProc(m, now, s.mem, s.procs[j]);
       move.Moved? && s' == State(move.mem, s.procs[j := move.proc])
  }

  // What one step does on its own.

  /** Cells change only under an exclusive lock on their segment, and no cell becomes free again. */
  ghost predicate Changes(m: Machine, mem: Memory, p: Phase, mem': Memory) {
    && |mem'.cells| == |mem.cells|
    && mem.log <= mem'.log
    && forall i :: 0 <= i < |mem.cells| ==>
         && (mem.cells[i].mark != Free ==> mem'.cells[i].mark != Free)
         && (mem'.cells[i] == mem.cells[i] || (Writes(p) && SegmentHeld(m, p) == m.Segment(i)))
  }

  lemma WorkLocal(m: Machine, now: int, mem: Memory, op: Op, p: Phase)
    requires MemoryOk(m, mem) && PhaseOk(m, p, op) && !Leaving(p) && (Reads(p) || Writes(p))
    ensures var (cells, p') := Work(m, now, mem, op, p);
            && PhaseOk(m, p', op)
            && MemoryOk(m, mem.(cells := cells))
            && Changes(m, mem, p, mem.(cells := cells))
            && (Reads(p) <==> Reads(p')) && (Writes(p) <==> Writes(p')) && SegmentHeld(m, p') == SegmentHeld(m, p)
  {
    if p.SweepLook? {
      SweepLocal(m, now, mem, op, p);
    } else if Reads(p) {
      ReadLocal(m, now, mem, op, p);
    } else {
      WriteLocal(m, now, mem, op, p);
    }
  }

  lemma SweepLocal(m: Machine, now: int, mem: Memory, op: Op, p: Phase)
    requires MemoryOk(m, mem) && PhaseOk(m, p, op) && p.SweepLook?
    ensures var (cells, p') := Work(m, now, mem, op, p);
            && PhaseOk(m, p', op)
            && MemoryOk(m, mem.(cells := cells))
            && Changes(m, mem, p, mem.(cells := cells))
            && Writes(p') && SegmentHeld(m, p') == SegmentHeld(m, p)
  {
  }

  lemma ReadLocal(m: Machine, now: int, mem: Memory, op: Op, p: Phase)
    requires MemoryOk(m, mem) && PhaseOk(m, p, op) && !Leaving(p) && Reads(p)
    ensures var (cells, p') := Work(m, now, mem, op, p);
            && PhaseOk(m, p', op)
            && cells == mem.cells
            && Reads(p') && SegmentHeld(m, p') == SegmentHeld(m, p)
  {
  }

  lemma WriteLocal(m: Machine, now: int, mem: Memory, op: Op, p: Phase)
    requires MemoryOk(m, mem) && PhaseOk(m, p, op) && !Leaving(p) && Writes(p) && !p.SweepLook?
    ensures var (cells, p') := Work(m, now, mem, op, p);
            && PhaseOk(m, p', op)
            && MemoryOk(m, mem.(cells := cells))
            && Changes(m, mem, p, mem.(cells := cells))
            && Writes(p') && SegmentHeld(m, p') == SegmentHeld(m, p)
  {
  }

  lemma AdmittedLocal(m: Machine, op: Op, p: Phase)
    requires PhaseOk(m, p, op) && Waits(p)
    ensures PhaseOk(m, Admitted(p), op)
    ensures SegmentHeld(m, Admitted(p)) == SegmentWanted(m, p)
    ensures if p.ScanWait? || p.ReadWait? then Reads(Admitted(p)) else Writes(Admitted(p))
  {
  }

  lemma ReleasedLocal(m: Machine, p: Proc)
    requires m.Ok() && ProcOk(m, p) && !p.phase.Idle? && Leaving(p.phase)
    ensures ProcOk(m, Released(m, p)) && (Released(m, p).phase.Idle? || Waits(Released(m, p).phase))
  {
  }

  lemma BeginLocal(m: Machine, p: Proc)
    requires m.Ok() && p.todo != []
    ensures ProcOk(m, Begin(m, p)) && Waits(Begin(m, p).phase)
  {
    m.InRange(0);
  }

  lemma StepLocal(m: Machine, now: int, mem: Memory, p: Proc)
    requires MemoryOk(m, mem) && ProcOk(m, p) && StepProc(m, now, mem, p).Moved?
    ensures var move := StepProc(m, now, mem, p);
            && MemoryOk(m, move.mem) && ProcOk(m, move.proc)
            && Changes(m, mem, p.phase, move.mem)
  {
    WantedInRange(m, p);
    HeldInRange(m, p);
    if p.phase.Idle? {
      BeginLocal(m, p);
    } else if Waits(p.phase) {
      AdmittedLocal(m, p.todo[0], p.phase);
    } else if Leaving(p.phase) {
      ReleasedLocal(m, p);
    } else {
      WorkLocal(m, now, mem, p.todo[0], p.phase);
    }
  }

  /** Permits only move between the semaphore and the process. */
  lemma StepConserves(m: Machine, now: int, mem: Memory, p: Proc, g: nat)
    requires MemoryOk(m, mem) && ProcOk(m, p) && StepProc(m, now, mem, p).Moved?
    requires g < m.cfg.segments
    ensures var move := StepProc(m, now, mem, p);
            move.mem.free[g] + HeldIn(m, move.proc.phase, g) == mem.free[g] + HeldIn(m, p.phase, g)
  {
    WantedInRange(m, p);
    HeldInRange(m, p);
    if p.phase.Idle? {
      BeginLocal(m, p);
    } else if Waits(p.phase) {
      AdmittedLocal(m, p.todo[0], p.phase);
    } else if Leaving(p.phase) {
      ReleasedLocal(m, p);
    } else {
      WorkLocal(m, now, mem, p.todo[0], p.phase);
    }
  }
}
