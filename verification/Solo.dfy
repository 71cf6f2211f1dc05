/** One operation, step by step, while every other process rests: it does to the cells exactly
    what its command does to the store. */
module Solo {
  import opened Stores
  import opened Cells
  import opened Interleaving
  import opened Safety

  function CommandOf(op: Op, deadline: int): Command
    requires !op.OpCollect?
  {
    match op
    case OpGet(key) => Get(key)
    case OpSet(key, value, _) => Command.Set(key, Entry(value, deadline))
    case OpDel(key) => Del(key)
  }

  /** A cell that a set of `key` may write. */
  predicate Target(c: Cell, s: Store, key: Text) {
    Hit(c, Holder(key)) || (key !in s.live && c.mark == Free)
  }

  ghost predicate Searching(cells: seq<Cell>, s: Store, goal: Goal, h: nat, k: nat, key: Text) {
    && h < |cells| && k <= |cells|
    && Holds(cells, s)
    && Find(cells, h, 0, goal) == Find(cells, h, k, goal)
    && (goal.Vacant? ==> key !in s.live)
  }

  /** But for cell `i`, which is being written, the cells hold the store. */
  ghost predicate HoldsBut(cells: seq<Cell>, s: Store, i: nat, key: Text) {
    i < |cells| && exists c :: Holds(cells[i := c], s) && Target(c, s, key)
  }

  /** How the cells and the store from before the operation are related while it is under way. */
  ghost predicate Underway(m: Machine, cells: seq<Cell>, s: Store, p: Proc)
    requires |cells| == m.Size() && ProcOk(m, p)
  {
    && !p.phase.Idle? && !p.todo[0].OpCollect?
    && var key := p.todo[0].key;
       match p.phase
       case ScanWait(goal, h, k, _) => Searching(cells, s, goal, h, k, key)
       case ScanLook(goal, h, k, _) => Searching(cells, s, goal, h, k, key)
       case ScanLeave(goal, h, k, _) => Searching(cells, s, goal, h, k, key)
       case ScanFound(goal, h, k) =>
         Holds(cells, s) && Hit(cells[m.Visit(h, k)], goal) && (goal.Vacant? ==> key !in s.live)
       case ReadWait(i) => Holds(cells, s) && Hit(cells[i], Holder(key))
       case ReadCopy(i) => Holds(cells, s) && Hit(cells[i], Holder(key))
       case ReadLeave(i, v) => Holds(cells, s) && Hit(cells[i], Holder(key)) && v == cells[i].value
       case WriteWait(i) => Holds(cells, s) && Target(cells[i], s, key)
       case WriteKey(i) => Holds(cells, s) && Target(cells[i], s, key)
       case WriteDeadline(i) => HoldsBut(cells, s, i, key)
       case WriteValue(i, _) => HoldsBut(cells, s, i, key)
       case WriteMark(i, _) => HoldsBut(cells, s, i, key)
       case WriteLeave(i, _) => HoldsBut(cells, s, i, key)
       case BuryWait(i) => Holds(cells, s) && Hit(cells[i], Holder(key))
       case BuryMark(i) => Holds(cells, s) && Hit(cells[i], Holder(key))
       case BuryLeave(i) => key in s.live && Holds(cells, s.(live := s.live - {key}))
       case _ => false
  }

  /** The outcome of an operation is the store's answer, and the cells now hold the store's next state. */
  ghost predicate Achieved(m: Machine, cells: seq<Cell>, s: Store, op: Op, o: Outcome)
    requires !op.OpCollect?
  {
    && o.op == op
    && o.reply == Apply(s, m.Size(), CommandOf(op, o.number)).1
    && Holds(cells, Apply(s, m.Size(), CommandOf(op, o.number)).0)
    && (!m.cfg.deadlines && op.OpSet? ==> o.number == 0)
  }

  lemma BeginSolo(m: Machine, now: int, mem: Memory, s: Store, p: Proc)
    requires MemoryOk(m, mem) && p.phase.Idle? && p.todo != [] && !p.todo[0].OpCollect? && Holds(mem.cells, s)
    ensures var move := StepProc(m, now, mem, p);
            && move.Moved? && move.mem.cells == mem.cells && ProcOk(m, move.proc)
            && move.proc.todo == p.todo && Underway(m, mem.cells, s, move.proc)
  {
    BeginLocal(m, p);
  }

  lemma SoloStep(m: Machine, now: int, mem: Memory, s: Store, p: Proc)
    requires MemoryOk(m, mem) && ProcOk(m, p) && Relies(m, mem, p) && Underway(m, mem.cells, s, p)
    requires StepProc(m, now, mem, p).Moved?
    ensures var move := StepProc(m, now, mem, p);
            && |move.mem.cells| == m.Size() && ProcOk(m, move.proc)
            && if move.proc.phase.Idle? then
                 move.proc.todo == p.todo[1..] && |move.proc.done| == |p.done| + 1
                 && Achieved(m, move.mem.cells, s, p.todo[0], move.proc.done[|p.done|])
               else move.proc.todo == p.todo && Underway(m, move.mem.cells, s, move.proc)
  {
    StepLocal(m, now, mem, p);
    WantedInRange(m, p);
    HeldInRange(m, p);
    if Waits(p.phase) {
    } else if Leaving(p.phase) {
      SoloLeave(m, now, mem, s, p);
    } else {
      SoloWork(m, now, mem, s, p);
    }
  }

  lemma SoloWork(m: Machine, now: int, mem: Memory, s: Store, p: Proc)
    requires MemoryOk(m, mem) && ProcOk(m, p) && Underway(m, mem.cells, s, p)
    requires !Waits(p.phase) && !Leaving(p.phase)
    ensures var (cells, phase) := Work(m, now, mem, p.todo[0], p.phase);
            |cells| == m.Size() && ProcOk(m, p.(phase := phase)) && Underway(m, cells, s, p.(phase := phase))
  {
    if Reads(p.phase) {
      SoloRead(m, now, mem, s, p);
    } else if p.phase.BuryMark? {
      WorkLocal(m, now, mem, p.todo[0], p.phase);
      BuryIsRemove(mem.cells, s, p.phase.i);
    } else {
      WorkLocal(m, now, mem, p.todo[0], p.phase);
      SoloWrite(m, now, mem, s, p);
    }
  }

  lemma SoloRead(m: Machine, now: int, mem: Memory, s: Store, p: Proc)
    requires MemoryOk(m, mem) && ProcOk(m, p) && Underway(m, mem.cells, s, p)
    requires Reads(p.phase) && !Leaving(p.phase)
    ensures var (cells, phase) := Work(m, now, mem, p.todo[0], p.phase);
            cells == mem.cells && ProcOk(m, p.(phase := phase)) && Underway(m, cells, s, p.(phase := phase))
  {
  }

  lemma SoloWrite(m: Machine, now: int, mem: Memory, s: Store, p: Proc)
    requires MemoryOk(m, mem) && ProcOk(m, p) && Underway(m, mem.cells, s, p)
    requires Writes(p.phase) && Attends(p.phase, p.phase.i) && !Leaving(p.phase)
    ensures HoldsBut(Work(m, now, mem, p.todo[0], p.phase).0, s, p.phase.i, p.todo[0].key)
  {
    var cells, i, key := mem.cells, p.phase.i, p.todo[0].key;
    var cells' := Work(m, now, mem, p.todo[0], p.phase).0;
    if p.phase.WriteKey? {
      assert cells'[i := cells[i]] == cells;
    } else {
      var c :| Holds(cells[i := c], s) && Target(c, s, key);
      assert cells'[i := c] == cells[i := c];
    }
  }

  lemma SoloLeave(m: Machine, now: int, mem: Memory, s: Store, p: Proc)
    requires MemoryOk(m, mem) && ProcOk(m, p) && Relies(m, mem, p) && Underway(m, mem.cells, s, p)
    requires Leaving(p.phase)
    ensures var p' := Released(m, p);
            && ProcOk(m, p')
            && if p'.phase.Idle? then
                 p'.todo == p.todo[1..] && |p'.done| == |p.done| + 1
                 && Achieved(m, mem.cells, s, p.todo[0], p'.done[|p.done|])
               else p'.todo == p.todo && Underway(m, mem.cells, s, p')
  {
    ReleasedLocal(m, p);
    var cells, op := mem.cells, p.todo[0];
    match p.phase
    case ScanLeave(goal, h, k, _) =>
      FindIsLookup(cells, s, h, op.key);
      FindIsRoom(cells, s, h);
    case ScanFound(goal, h, k) =>
    case ReadLeave(i, v) =>
      LiveAt(cells, i);
    case WriteLeave(i, d) =>
      var c :| Holds(cells[i := c], s) && Target(c, s, op.key);
      assert cells[i := c][i := cells[i]] == cells;
      FillIsSet(cells[i := c], s, i, cells[i]);
    case BuryLeave(i) =>
  }
}
