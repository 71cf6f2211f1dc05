/** What the interleaved table does not promise: a set looks for its cell in one critical section and writes it in
    another, and what other processes do in between can spoil both. */
module Races {
  import opened Bytes
  import opened Stores
  import opened Cells
  import opened Sums
  import opened Interleaving
  import opened Safety
  import opened Progress

  // One process at a time.

  function Last(run: seq<State>): State
    requires run != []
  {
    run[|run| - 1]
  }

  /** No process but j holds a lock. */
  predicate Quiet(s: State, j: nat) {
    && j < |s.procs|
    && forall k :: 0 <= k < |s.procs| && k != j ==> s.procs[k].phase.Idle? || Waits(s.procs[k].phase)
  }

  /** A run that process j can continue alone. */
  ghost predicate Alone(m: Machine, run: seq<State>, j: nat) {
    run != [] && Run(m, run) && Inv(m, Last(run)) && Quiet(Last(run), j)
  }

  lemma Unblocked(m: Machine, s: State, j: nat)
    requires Inv(m, s) && Quiet(s, j) && !Finished(s.procs[j])
    ensures StepProc(m, 0, s.mem, s.procs[j]).Moved?
  {
    var p := s.procs[j];
    if Waits(p.phase) {
      var g := SegmentWanted(m, p.phase);
      WantedInRange(m, p);
      assert Conserved(m, s, g);
      SumPositive(HeldBy(m, g), s.procs);
    }
  }

  /** The next step of process j, at time 0. */
  lemma Goes(m: Machine, run: seq<State>, j: nat) returns (longer: seq<State>)
    requires Alone(m, run, j) && !Finished(Last(run).procs[j])
    ensures run <= longer && Alone(m, longer, j)
    ensures var s := Last(run);
            && StepProc(m, 0, s.mem, s.procs[j]).Moved?
            && Last(longer) == State(StepProc(m, 0, s.mem, s.procs[j]).mem,
                                     s.procs[j := StepProc(m, 0, s.mem, s.procs[j]).proc])
  {
    var s := Last(run);
    Unblocked(m, s, j);
    var move := StepProc(m, 0, s.mem, s.procs[j]);
    var s' := State(move.mem, s.procs[j := move.proc]);
    assert Steps(m, s, j, 0, s');
    longer := run + [s'];
    forall t | 0 <= t < |longer| - 1 ensures Step(m, longer[t], longer[t + 1]) {
      if t < |run| - 1 {
        assert longer[t] == run[t] && longer[t + 1] == run[t + 1];
      }
    }
    StepInv(m, s, j, 0, s');
  }

  // Scanning.

  /** Process p scans for `goal`, and no cell it has visited is a hit. */
  ghost predicate Hunting(m: Machine, cells: seq<Cell>, goal: Goal, p: Proc) {
    && p.todo != [] && !p.todo[0].OpCollect? && |cells| == m.Size() && m.home(p.todo[0].key) < |cells|
    && ProcOk(m, p)
    && var home := m.home(p.todo[0].key);
       match p.phase
       case ScanWait(g, h, k, _) => g == goal && h == home && Find(cells, h, 0, goal) == Find(cells, h, k, goal)
       case ScanLook(g, h, k, _) => g == goal && h == home && Find(cells, h, 0, goal) == Find(cells, h, k, goal)
       case ScanLeave(g, h, k, _) => g == goal && h == home && Find(cells, h, 0, goal) == Find(cells, h, k, goal)
       case ScanFound(g, h, k) => g == goal && h == home && Find(cells, h, 0, goal) == m.Visit(h, k)
       case _ => false
  }

  /** Where the scan leads. */
  function HuntEnd(m: Machine, cells: seq<Cell>, goal: Goal, p: Proc): Proc
    requires p.todo != [] && !p.todo[0].OpCollect? && m.home(p.todo[0].key) < |cells|
  {
    var op := p.todo[0];
    var i := Find(cells, m.home(op.key), 0, goal);
    if i >= 0 then
      p.(phase := match op case OpGet(_) => ReadWait(i) case OpSet(_, _, _) => WriteWait(i) case _ => BuryWait(i))
    else if goal.Holder? && op.OpSet? then p.(phase := ScanWait(Vacant, m.home(op.key), 0, 0))
    else Finish(p, Fail, 0)
  }

  lemma HuntStep(m: Machine, mem: Memory, goal: Goal, p: Proc)
    requires MemoryOk(m, mem) && Hunting(m, mem.cells, goal, p) && StepProc(m, 0, mem, p).Moved?
    ensures var move := StepProc(m, 0, mem, p);
            && move.mem.cells == mem.cells
            && (move.proc == HuntEnd(m, mem.cells, goal, p)
                || (Hunting(m, mem.cells, goal, move.proc) && move.proc == p.(phase := move.proc.phase)))
  {
    StepLocal(m, 0, mem, p);
    WantedInRange(m, p);
    HeldInRange(m, p);
  }

  /** The rest of a scan, up to where it leads. */
  lemma {:induction false} Hunts(m: Machine, run: seq<State>, j: nat, goal: Goal) returns (longer: seq<State>)
    requires Alone(m, run, j) && Hunting(m, Last(run).mem.cells, goal, Last(run).procs[j])
    ensures run <= longer && Alone(m, longer, j)
    ensures var s := Last(run);
            && Last(longer).mem.cells == s.mem.cells
            && Last(longer).procs == s.procs[j := HuntEnd(m, s.mem.cells, goal, s.procs[j])]
    decreases Effort(m)(Last(run).procs[j])
  {
    var s := Last(run);
    longer := Goes(m, run, j);
    HuntStep(m, s.mem, goal, s.procs[j]);
    StepFalls(m, 0, s.mem, s.procs[j]);
    var p' := Last(longer).procs[j];
    if p' != HuntEnd(m, s.mem.cells, goal, s.procs[j]) {
      longer := Hunts(m, longer, j, goal);
    }
  }

  /** The beginning of an operation and its search for the key. */
  lemma LooksUp(m: Machine, run: seq<State>, j: nat) returns (longer: seq<State>)
    requires Alone(m, run, j) && Last(run).procs[j].phase.Idle?
    requires Last(run).procs[j].todo != [] && !Last(run).procs[j].todo[0].OpCollect?
    ensures run <= longer && Alone(m, longer, j)
    ensures var s := Last(run);
            var p := s.procs[j];
            && |s.mem.cells| == m.Size() && m.home(p.todo[0].key) < m.Size()
            && Last(longer).mem.cells == s.mem.cells
            && Last(longer).procs == s.procs[j := HuntEnd(m, s.mem.cells, Holder(p.todo[0].key), p)]
  {
    var s := Last(run);
    var p := s.procs[j];
    BeginLocal(m, p);
    longer := Goes(m, run, j);
    longer := Hunts(m, longer, j, Holder(p.todo[0].key));
  }

  // Writing and burying.

  /** What a set stores as its deadline when the clock shows 0. */
  function Date(m: Machine, op: Op): int
    requires op.OpSet?
  {
    if m.cfg.deadlines then ToInt32(op.ttl) else 0
  }

  function CellOf(m: Machine, op: Op): Cell
    requires op.OpSet?
  {
    Cell(Filled, op.key, Date(m, op), op.value)
  }

  function Granted(m: Machine, op: Op): Outcome
    requires op.OpSet?
  {
    Outcome(op, Done, Date(m, op))
  }

  /** Process p writes cell i, and so far nothing else has changed. */
  ghost predicate Writing(m: Machine, cells0: seq<Cell>, cells: seq<Cell>, i: nat, p: Proc) {
    && p.todo != [] && p.todo[0].OpSet? && ProcOk(m, p)
    && i < |cells0| == |cells| == m.Size() && cells == cells0[i := cells[i]]
    && match p.phase
       case WriteWait(x) => x == i
       case WriteKey(x) => x == i
       case WriteDeadline(x) => x == i
       case WriteValue(x, d) => x == i && d == Date(m, p.todo[0])
       case WriteMark(x, d) => x == i && d == Date(m, p.todo[0])
       case WriteLeave(x, d) => x == i && d == Date(m, p.todo[0])
       case _ => false
  }

  lemma WriteStep(m: Machine, cells0: seq<Cell>, mem: Memory, i: nat, p: Proc)
    requires MemoryOk(m, mem) && Writing(m, cells0, mem.cells, i, p) && Relies(m, mem, p)
    requires StepProc(m, 0, mem, p).Moved?
    ensures var move := StepProc(m, 0, mem, p);
            if p.phase.WriteLeave? then
              && move.mem.cells == cells0[i := CellOf(m, p.todo[0])]
              && move.proc == Finish(p, Done, Date(m, p.todo[0]))
            else Writing(m, cells0, move.mem.cells, i, move.proc) && move.proc == p.(phase := move.proc.phase)
  {
    StepLocal(m, 0, mem, p);
    WantedInRange(m, p);
    HeldInRange(m, p);
  }

  lemma {:induction false} WritesOn(m: Machine, run: seq<State>, j: nat, cells0: seq<Cell>, i: nat)
      returns (longer: seq<State>)
    requires Alone(m, run, j) && Writing(m, cells0, Last(run).mem.cells, i, Last(run).procs[j])
    ensures run <= longer && Alone(m, longer, j)
    ensures var s := Last(run);
            var p := s.procs[j];
            && Last(longer).mem.cells == cells0[i := CellOf(m, p.todo[0])]
            && Last(longer).procs == s.procs[j := Finish(p, Done, Date(m, p.todo[0]))]
    decreases Effort(m)(Last(run).procs[j])
  {
    var s := Last(run);
    longer := Goes(m, run, j);
    WriteStep(m, cells0, s.mem, i, s.procs[j]);
    StepFalls(m, 0, s.mem, s.procs[j]);
    if !s.procs[j].phase.WriteLeave? {
      longer := WritesOn(m, longer, j, cells0, i);
    }
  }

  /** A set that has chosen its cell writes it, whatever has been written there meanwhile. */
  lemma WritesCell(m: Machine, run: seq<State>, j: nat, i: nat) returns (longer: seq<State>)
    requires Alone(m, run, j) && Last(run).procs[j].phase == WriteWait(i)
    ensures run <= longer && Alone(m, longer, j)
    ensures var s := Last(run);
            var p := s.procs[j];
            && p.todo != [] && p.todo[0].OpSet? && i < |s.mem.cells|
            && Last(longer).mem.cells == s.mem.cells[i := CellOf(m, p.todo[0])]
            && Last(longer).procs == s.procs[j := Finish(p, Done, Date(m, p.todo[0]))]
  {
    longer := WritesOn(m, run, j, Last(run).mem.cells, i);
  }

  /** A delete that has chosen its cell buries it. */
  lemma BuriesCell(m: Machine, run: seq<State>, j: nat, i: nat) returns (longer: seq<State>)
    requires Alone(m, run, j) && Last(run).procs[j].phase == BuryWait(i)
    ensures run <= longer && Alone(m, longer, j)
    ensures var s := Last(run);
            var p := s.procs[j];
            && p.todo != [] && i < |s.mem.cells|
            && Last(longer).mem.cells == s.mem.cells[i := s.mem.cells[i].(mark := Rip)]
            && Last(longer).procs == s.procs[j := Finish(p, Done, 0)]
  {
    var p := Last(run).procs[j];
    longer := Goes(m, run, j);
    assert Last(longer).procs[j] == p.(phase := BuryMark(i));
    longer := Goes(m, longer, j);
    assert Last(longer).procs[j] == p.(phase := BuryLeave(i));
    longer := Goes(m, longer, j);
  }

  // The races.

  function Blanks(m: Machine): (cells: seq<Cell>)
    ensures |cells| == m.Size() && forall i :: 0 <= i < |cells| ==> cells[i] == Blank
  {
    seq(m.Size(), _ => Blank)
  }

  /** Before anything has happened: a zeroed table and two programs. */
  function Beginning(m: Machine, first: seq<Op>, second: seq<Op>): State {
    State(Memory(Blanks(m), m.cfg.AllPermits(), {}), [Proc(first, Idle, []), Proc(second, Idle, [])])
  }

  lemma Begins(m: Machine, first: seq<Op>, second: seq<Op>)
    requires m.Ok()
    ensures Alone(m, [Beginning(m, first, second)], 0)
  {
    InitInv(m, Beginning(m, first, second));
  }

  /** Another process takes its turn when this one holds no lock. */
  lemma Turns(m: Machine, run: seq<State>, j: nat, k: nat)
    requires Alone(m, run, j) && k < |Last(run).procs|
    requires Last(run).procs[j].phase.Idle? || Waits(Last(run).procs[j].phase)
    ensures Alone(m, run, k)
  {
  }

  lemma FindNone(cells: seq<Cell>, h: nat, key: Text)
    requires h < |cells| && forall i :: 0 <= i < |cells| ==> !Hit(cells[i], Holder(key))
    ensures Find(cells, h, 0, Holder(key)) == -1
  {
    FindComplete(cells, h, Holder(key));
  }

  /** A set that finds its key nowhere comes to the point of looking for a free cell. */
  lemma LooksForRoom(m: Machine, run: seq<State>, j: nat) returns (longer: seq<State>)
    requires Alone(m, run, j) && Last(run).procs[j].phase.Idle?
    requires Last(run).procs[j].todo != [] && Last(run).procs[j].todo[0].OpSet?
    requires forall i :: 0 <= i < |Last(run).mem.cells| ==>
      !Hit(Last(run).mem.cells[i], Holder(Last(run).procs[j].todo[0].key))
    ensures run <= longer && Alone(m, longer, j)
    ensures var s := Last(run);
            var p := s.procs[j];
            && Last(longer).mem.cells == s.mem.cells
            && Last(longer).procs == s.procs[j := p.(phase := ScanWait(Vacant, m.home(p.todo[0].key), 0, 0))]
  {
    var s := Last(run);
    longer := LooksUp(m, run, j);
    FindNone(s.mem.cells, m.home(s.procs[j].todo[0].key), s.procs[j].todo[0].key);
  }

  /** It then chooses the first free cell from the key's own on. */
  lemma ChoosesCell(m: Machine, run: seq<State>, j: nat, i: nat) returns (longer: seq<State>)
    requires Alone(m, run, j) && Last(run).procs[j].todo != [] && Last(run).procs[j].todo[0].OpSet?
    requires Last(run).procs[j].phase == ScanWait(Vacant, m.home(Last(run).procs[j].todo[0].key), 0, 0)
    requires m.home(Last(run).procs[j].todo[0].key) < |Last(run).mem.cells|
    requires i == Find(Last(run).mem.cells, m.home(Last(run).procs[j].todo[0].key), 0, Vacant)
    ensures run <= longer && Alone(m, longer, j)
    ensures Last(longer).mem.cells == Last(run).mem.cells
    ensures Last(longer).procs == Last(run).procs[j := Last(run).procs[j].(phase := WriteWait(i))]
  {
    longer := Hunts(m, run, j, Vacant);
  }

  /** Two sets of different keys with the same own cell choose the same free cell, both are granted it, and the second
      wipes out the first: on any table. */
  lemma SetsClash(m: Machine, a: Op, rest: seq<Op>, b: Op) returns (run: seq<State>)
    requires m.Ok() && a.OpSet? && b.OpSet? && a.key != b.key && m.home(a.key) == m.home(b.key)
    ensures Alone(m, run, 0) && run[0] == Beginning(m, [a] + rest, [b])
    ensures Last(run).procs == [Proc(rest, Idle, [Granted(m, a)]), Proc([], Idle, [Granted(m, b)])]
    ensures Last(run).mem.cells == Blanks(m)[m.home(b.key) := CellOf(m, b)]
  {
    run := BothChoose(m, a, rest, b);
    run := WritesCell(m, run, 0, m.home(a.key));
    FinishOne(a, rest, WriteWait(m.home(a.key)), Done, Date(m, a));
    assert Last(run).procs == [Proc(rest, Idle, [Granted(m, a)]), Proc([b], WriteWait(m.home(b.key)), [])];
    Turns(m, run, 0, 1);
    run := WritesCell(m, run, 1, m.home(b.key));
    FinishOne(b, [], WriteWait(m.home(b.key)), Done, Date(m, b));
    assert Last(run).procs == [Proc(rest, Idle, [Granted(m, a)]), Proc([], Idle, [Granted(m, b)])];
    Turns(m, run, 1, 0);
  }

  /** The last operation of a program, done. */
  lemma FinishOne(op: Op, rest: seq<Op>, p: Phase, reply: Reply, number: int)
    ensures Finish(Proc([op] + rest, p, []), reply, number) == Proc(rest, Idle, [Outcome(op, reply, number)])
    ensures Finish(Proc([op], p, []), reply, number) == Proc([], Idle, [Outcome(op, reply, number)])
  {
    assert ([op] + rest)[1..] == rest && [op][1..] == [];
    assert [] + [Outcome(op, reply, number)] == [Outcome(op, reply, number)];
  }

  lemma BothChoose(m: Machine, a: Op, rest: seq<Op>, b: Op) returns (run: seq<State>)
    requires m.Ok() && a.OpSet? && b.OpSet? && m.home(a.key) == m.home(b.key)
    ensures Alone(m, run, 0) && run[0] == Beginning(m, [a] + rest, [b]) && Last(run).mem.cells == Blanks(m)
    ensures Last(run).procs
         == [Proc([a] + rest, WriteWait(m.home(a.key)), []), Proc([b], WriteWait(m.home(b.key)), [])]
  {
    var h := m.home(a.key);
    Begins(m, [a] + rest, [b]);
    run := [Beginning(m, [a] + rest, [b])];
    assert Find(Blanks(m), h, 0, Vacant) == h;
    run := LooksForRoom(m, run, 0);
    run := ChoosesCell(m, run, 0, h);
    assert Last(run).procs == [Proc([a] + rest, WriteWait(h), []), Proc([b], Idle, [])];
    Turns(m, run, 0, 1);
    run := LooksForRoom(m, run, 1);
    run := ChoosesCell(m, run, 1, h);
    assert Last(run).procs == [Proc([a] + rest, WriteWait(h), []), Proc([b], WriteWait(h), [])];
    Turns(m, run, 1, 0);
  }

  /** The first process then asks for its key and does not find it: its own set was granted, and nobody removes
      anything. */
  lemma SetIsLost(m: Machine, a: Op, b: Op) returns (run: seq<State>)
    requires m.Ok() && a.OpSet? && b.OpSet? && a.key != b.key && m.home(a.key) == m.home(b.key)
    ensures run != [] && Run(m, run) && run[0] == Beginning(m, [a, OpGet(a.key)], [b])
    ensures Last(run).procs == [Proc([], Idle, [Granted(m, a), Outcome(OpGet(a.key), Fail, 0)]),
                                Proc([], Idle, [Granted(m, b)])]
  {
    assert [a] + [OpGet(a.key)] == [a, OpGet(a.key)];
    run := SetsClash(m, a, [OpGet(a.key)], b);
    FindNone(Last(run).mem.cells, m.home(a.key), a.key);
    run := LooksUp(m, run, 0);
    assert [OpGet(a.key)][1..] == [];
    assert [Granted(m, a)] + [Outcome(OpGet(a.key), Fail, 0)] == [Granted(m, a), Outcome(OpGet(a.key), Fail, 0)];
  }

  /** The command of a set, as a process dates it when the clock shows 0. */
  function SetOf(m: Machine, op: Op): Command
    requires op.OpSet?
  {
    Command.Set(op.key, CellOf(m, op).Entry())
  }

  /** No order of the three operations that keeps the first process's own explains these outcomes, whatever the
      number of cells: a granted set and a failed get of its key. */
  lemma NoOrderExplains(m: Machine, a: Op, b: Op, n: nat)
    requires a.OpSet? && b.OpSet? && a.key != b.key
    ensures var get := Command.Get(a.key);
            && Replies(Empty, n, [SetOf(m, a), get, SetOf(m, b)]) != [Done, Fail, Done]
            && Replies(Empty, n, [SetOf(m, a), SetOf(m, b), get]) != [Done, Done, Fail]
            && Replies(Empty, n, [SetOf(m, b), SetOf(m, a), get]) != [Done, Done, Fail]
  {
    var get := Command.Get(a.key);
    ThreeReplies(n, SetOf(m, a), get, SetOf(m, b));
    ThreeReplies(n, SetOf(m, a), SetOf(m, b), get);
    ThreeReplies(n, SetOf(m, b), SetOf(m, a), get);
  }

  lemma ThreeReplies(n: nat, c: Command, d: Command, e: Command)
    ensures var (s, r) := Apply(Empty, n, c);
            var (s', r') := Apply(s, n, d);
            Replies(Empty, n, [c, d, e]) == [r, r', Apply(s', n, e).1]
  {
    assert [c, d, e][..2] == [c, d] && [c, d][..1] == [c] && [c][..0] == [];
    var s := Apply(Empty, n, c).0;
    assert After(Empty, n, []) == Empty && After(Empty, n, [c]) == s;
    assert After(Empty, n, [c, d]) == Apply(s, n, d).0;
    assert Replies(Empty, n, [c]) == [Apply(Empty, n, c).1];
    assert Replies(Empty, n, [c, d]) == [Apply(Empty, n, c).1, Apply(s, n, d).1];
  }

  /** One new key can stand in two cells, both sets granted, and a delete that is made and granted after that leaves it
      alive: on any table of more than one cell. */
  lemma KeyLandsTwice(m: Machine, a: Op, b: Op) returns (run: seq<State>, longer: seq<State>)
    requires m.Ok() && m.Size() > 1 && a.OpSet? && b.OpSet? && a.key == b.key
    ensures run != [] && Run(m, run) && run[0] == Beginning(m, [a, OpDel(a.key)], [b])
    ensures Last(run).procs == [Proc([OpDel(a.key)], Idle, [Granted(m, a)]), Proc([], Idle, [Granted(m, b)])]
    ensures var (h, x) := (m.home(a.key), m.Visit(m.home(a.key), 1));
            && h != x && h < m.Size() && x < m.Size()
            && Last(run).mem.cells == Blanks(m)[h := CellOf(m, a)][x := CellOf(m, b)] && !Unique(Last(run).mem.cells)
    ensures run <= longer && Run(m, longer)
    ensures Last(longer).procs == [Proc([], Idle, [Granted(m, a), Outcome(OpDel(a.key), Done, 0)]),
                                   Proc([], Idle, [Granted(m, b)])]
    ensures Owned(Last(longer).mem.cells, a.key)
  {
    var h, x := m.home(a.key), m.Visit(m.home(a.key), 1);
    run := FirstStores(m, a, b);
    var cells := Blanks(m)[h := CellOf(m, a)];
    SecondVacant(m, a, cells);
    run := ChoosesCell(m, run, 1, x);
    run := WritesCell(m, run, 1, x);
    FinishOne(b, [], WriteWait(x), Done, Date(m, b));
    assert Last(run).procs == [Proc([OpDel(a.key)], Idle, [Granted(m, a)]), Proc([], Idle, [Granted(m, b)])];
    assert Last(run).mem.cells[h].key == Last(run).mem.cells[x].key;
    Turns(m, run, 1, 0);
    longer := DeleteMisses(m, run, a.key, x, Granted(m, a), Proc([], Idle, [Granted(m, b)]));
  }

  /** A delete of a key that stands in a second cell too is granted and leaves that one alive. */
  lemma DeleteMisses(m: Machine, run: seq<State>, key: Text, x: nat, o: Outcome, other: Proc)
        returns (longer: seq<State>)
    requires Alone(m, run, 0) && Last(run).procs == [Proc([OpDel(key)], Idle, [o]), other]
    requires |Last(run).mem.cells| == m.Size() && m.home(key) < m.Size() && x < m.Size() && x != m.home(key)
    requires Hit(Last(run).mem.cells[m.home(key)], Holder(key)) && Hit(Last(run).mem.cells[x], Holder(key))
    ensures run <= longer && Run(m, longer)
    ensures Last(longer).procs == [Proc([], Idle, [o, Outcome(OpDel(key), Done, 0)]), other]
    ensures Owned(Last(longer).mem.cells, key)
  {
    var h, del := m.home(key), OpDel(key);
    assert Find(Last(run).mem.cells, h, 0, Holder(key)) == h;
    longer := LooksUp(m, run, 0);
    assert Last(longer).procs == [Proc([del], BuryWait(h), [o]), other];
    longer := BuriesCell(m, longer, 0, h);
    assert [del][1..] == [] && [o] + [Outcome(del, Done, 0)] == [o, Outcome(del, Done, 0)];
    assert Last(longer).procs[0] == Proc([], Idle, [o, Outcome(del, Done, 0)]);
    assert Hit(Last(longer).mem.cells[x], Holder(key));
  }

  lemma SecondVacant(m: Machine, a: Op, cells: seq<Cell>)
    requires m.Ok() && m.Size() > 1 && a.OpSet? && cells == Blanks(m)[m.home(a.key) := CellOf(m, a)]
    ensures Find(cells, m.home(a.key), 0, Vacant) == m.Visit(m.home(a.key), 1) != m.home(a.key)
  {
    var h := m.home(a.key);
    assert Probe(h, 0, m.Size()) == h && Probe(h, 1, m.Size()) != h;
    assert Find(cells, h, 0, Vacant) == Find(cells, h, 1, Vacant);
  }

  /** The second process has looked for its key before the first stores the same one. */
  lemma FirstStores(m: Machine, a: Op, b: Op) returns (run: seq<State>)
    requires m.Ok() && a.OpSet? && b.OpSet? && a.key == b.key
    ensures Alone(m, run, 1) && run[0] == Beginning(m, [a, OpDel(a.key)], [b])
    ensures Last(run).mem.cells == Blanks(m)[m.home(a.key) := CellOf(m, a)]
    ensures Last(run).procs == [Proc([OpDel(a.key)], Idle, [Granted(m, a)]),
                                Proc([b], ScanWait(Vacant, m.home(b.key), 0, 0), [])]
  {
    var h, del := m.home(a.key), OpDel(a.key);
    Begins(m, [a, del], [b]);
    run := [Beginning(m, [a, del], [b])];
    Turns(m, run, 0, 1);
    run := LooksForRoom(m, run, 1);
    assert Last(run).procs == [Proc([a, del], Idle, []), Proc([b], ScanWait(Vacant, h, 0, 0), [])];
    Turns(m, run, 1, 0);
    assert Find(Blanks(m), h, 0, Vacant) == h;
    run := LooksForRoom(m, run, 0);
    run := ChoosesCell(m, run, 0, h);
    assert Last(run).mem.cells == Blanks(m);
    assert Last(run).procs == [Proc([a, del], WriteWait(h), []), Proc([b], ScanWait(Vacant, h, 0, 0), [])];
    run := WritesCell(m, run, 0, h);
    assert [a] + [del] == [a, del];
    FinishOne(a, [del], WriteWait(h), Done, Date(m, a));
    assert Last(run).procs == [Proc([del], Idle, [Granted(m, a)]), Proc([b], ScanWait(Vacant, h, 0, 0), [])];
    Turns(m, run, 0, 1);
  }
}
