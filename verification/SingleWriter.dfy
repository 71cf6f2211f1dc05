/** When the interleaved table does answer like the store: when one process at most writes and all others only read. */
module SingleWriter {
  import opened Bytes
  import opened Stores
  import opened Cells
  import opened Interleaving
  import opened Safety
  import Solo

  predicate OnlyGets(ops: seq<Op>) {
    forall k :: 0 <= k < |ops| ==> ops[k].OpGet?
  }

  /** Every process but `w` has a program of gets. */
  ghost predicate OneWriter(s: State, w: nat) {
    w < |s.procs| && forall j :: 0 <= j < |s.procs| && j != w ==> OnlyGets(s.procs[j].todo)
  }

  // The cells as others can see them.

  /** Between the first copy into a record and its mark. */
  predicate Midway(p: Phase) {
    p.WriteDeadline? || p.WriteValue? || p.WriteMark?
  }

  /** The cells of the last state in which `w` was not in the middle of a write. */
  function Seen(run: seq<State>, w: nat, t: nat): seq<Cell>
    requires t < |run|
  {
    if t > 0 && w < |run[t].procs| && Midway(run[t].procs[w].phase) then Seen(run, w, t - 1) else run[t].mem.cells
  }

  function StoreOf(cells: seq<Cell>): Store {
    Store(Live(cells), |cells| - FreeCells(cells))
  }

  /** The store that the table stands for in the t-th state. */
  function StoreAt(run: seq<State>, w: nat, t: nat): Store
    requires t < |run|
  {
    StoreOf(Seen(run, w, t))
  }

  /** The last state, up to the t-th, in which process j was between two operations. */
  function Since(run: seq<State>, j: nat, t: nat): (b: nat)
    requires t < |run|
    ensures b <= t
  {
    if t == 0 || (j < |run[t].procs| && run[t].procs[j].phase.Idle?) then t else Since(run, j, t - 1)
  }

  ghost predicate Sound(v: seq<Cell>) {
    Unique(v) && Tidy(v)
  }

  /** A cell that a set of `key` may write. */
  ghost predicate Fillable(v: seq<Cell>, i: nat, key: Text) {
    i < |v| && (Hit(v[i], Holder(key)) || (!Owned(v, key) && v[i].mark == Free))
  }

  /** How the cells seen can change in one step. */
  ghost predicate Filling(v: seq<Cell>, i: nat, c: Cell) {
    c.mark == Filled && Fillable(v, i, c.key)
  }

  ghost predicate Burying(v: seq<Cell>, i: nat, c: Cell) {
    i < |v| && v[i].mark == Filled && c == v[i].(mark := Rip)
  }

  ghost predicate Evolves(v: seq<Cell>, v': seq<Cell>) {
    v' == v || exists i, c :: 0 <= i < |v| && v' == v[i := c] && (Filling(v, i, c) || Burying(v, i, c))
  }

  lemma EvolvesSound(v: seq<Cell>, v': seq<Cell>)
    requires Sound(v) && Evolves(v, v')
    ensures Sound(v') && |v'| == |v|
  {
    if v' != v {
      var i, c :| 0 <= i < |v| && v' == v[i := c] && (Filling(v, i, c) || Burying(v, i, c));
      forall j | 0 <= j < |v| && j != i && v[j].mark == Filled && c.mark == Filled ensures v[j].key != c.key {
        assert Hit(v[j], Holder(v[j].key));
      }
    }
  }

  /** A key that stays in the table stays in its cell; a cell given up keeps its value and is not used again. */
  lemma CellStays(v: seq<Cell>, v': seq<Cell>, i: nat, key: Text)
    requires Sound(v) && Evolves(v, v') && i < |v|
    ensures |v'| == |v|
    ensures Hit(v[i], Holder(key)) ==> Hit(v'[i], Holder(key)) || (v'[i] == v[i].(mark := Rip) && !Owned(v', key))
    ensures v[i].mark == Rip ==> v'[i] == v[i]
  {
    if v' != v {
      var x, c :| 0 <= x < |v| && v' == v[x := c] && (Filling(v, x, c) || Burying(v, x, c));
      if Hit(v[i], Holder(key)) && x == i && Burying(v, x, c) {
        forall j | 0 <= j < |v'| ensures !Hit(v'[j], Holder(key)) {
        }
      }
    }
  }

  // The writer.

  /** `v0` were the cells when the writer began its operation, `v` are the cells seen now. */
  ghost predicate WriterOk(m: Machine, v0: seq<Cell>, v: seq<Cell>, cells: seq<Cell>, p: Proc)
    requires ProcOk(m, p) && |v0| == |v| == |cells| == m.Size()
  {
    && Sound(v0)
    && match p.phase
       case Idle => v0 == v == cells
       case ScanWait(goal, h, k, _) => v0 == v == cells && Looking(v, goal, h, k, p.todo[0].key)
       case ScanLook(goal, h, k, _) => v0 == v == cells && Looking(v, goal, h, k, p.todo[0].key)
       case ScanLeave(goal, h, k, _) => v0 == v == cells && Looking(v, goal, h, k, p.todo[0].key)
       case ScanFound(goal, h, k) =>
         v0 == v == cells && Hit(v[m.Visit(h, k)], goal) && (goal.Vacant? ==> !Owned(v, p.todo[0].key))
       case ReadWait(i) => v0 == v == cells && Hit(v[i], Holder(p.todo[0].key))
       case ReadCopy(i) => v0 == v == cells && Hit(v[i], Holder(p.todo[0].key))
       case ReadLeave(i, value) => v0 == v == cells && Hit(v[i], Holder(p.todo[0].key)) && value == v[i].value
       case WriteWait(i) => v0 == v == cells && Fillable(v, i, p.todo[0].key)
       case WriteKey(i) => v0 == v == cells && Fillable(v, i, p.todo[0].key)
       case WriteDeadline(i) => v0 == v && Fillable(v, i, p.todo[0].key) && cells == v[i := cells[i]]
       case WriteValue(i, _) => v0 == v && Fillable(v, i, p.todo[0].key) && cells == v[i := cells[i]]
       case WriteMark(i, _) => v0 == v && Fillable(v, i, p.todo[0].key) && cells == v[i := cells[i]]
       case WriteLeave(i, d) =>
         v == cells && Fillable(v0, i, p.todo[0].key) && v == v0[i := Cell(Filled, p.todo[0].key, d, p.todo[0].value)]
       case BuryWait(i) => v0 == v == cells && Hit(v[i], Holder(p.todo[0].key))
       case BuryMark(i) => v0 == v == cells && Hit(v[i], Holder(p.todo[0].key))
       case BuryLeave(i) => v == cells && Hit(v0[i], Holder(p.todo[0].key)) && v == v0[i := v0[i].(mark := Rip)]
       case SweepWait(_, _) => v == cells
       case SweepLook(_, _) => v == cells
       case SweepLeave(_, _) => v == cells
  }

  /** No cell visited before the k-th is a hit, and a free cell is sought only for a key that is nowhere. */
  ghost predicate Looking(v: seq<Cell>, goal: Goal, h: nat, k: nat, key: Text) {
    && h < |v| && k <= |v| && Find(v, h, 0, goal) == Find(v, h, k, goal)
    && (goal.Vacant? ==> !Owned(v, key))
  }

  /** The cells seen after a step of the writer, and those its operation began with. */
  function SeenNext(v: seq<Cell>, cells': seq<Cell>, p': Phase): seq<Cell> {
    if Midway(p') then v else cells'
  }

  function BeganNext(v0: seq<Cell>, cells': seq<Cell>, p': Phase): seq<Cell> {
    if p'.Idle? then cells' else v0
  }

  /** What a step of the writer comes to. */
  ghost predicate WriterMoves(m: Machine, v0: seq<Cell>, v: seq<Cell>, cells': seq<Cell>, p': Proc)
    requires |v0| == |v| == m.Size()
  {
    && |cells'| == m.Size() && ProcOk(m, p')
    && Evolves(v, SeenNext(v, cells', p'.phase))
    && WriterOk(m, BeganNext(v0, cells', p'.phase), SeenNext(v, cells', p'.phase), cells', p')
  }

  lemma WriterScans(m: Machine, now: int, mem: Memory, v0: seq<Cell>, v: seq<Cell>, p: Proc)
    requires MemoryOk(m, mem) && ProcOk(m, p) && |v0| == |v| == m.Size() && WriterOk(m, v0, v, mem.cells, p)
    requires p.phase.ScanLook? || p.phase.ReadCopy?
    ensures var (cells, phase) := Work(m, now, mem, p.todo[0], p.phase);
            WriterMoves(m, v0, v, cells, p.(phase := phase))
  {
  }

  lemma WriterWrites(m: Machine, now: int, mem: Memory, v0: seq<Cell>, v: seq<Cell>, p: Proc)
    requires MemoryOk(m, mem) && ProcOk(m, p) && |v0| == |v| == m.Size() && WriterOk(m, v0, v, mem.cells, p)
    requires Relies(m, mem, p) && (p.phase.WriteKey? || Midway(p.phase))
    ensures var (cells, phase) := Work(m, now, mem, p.todo[0], p.phase);
            WriterMoves(m, v0, v, cells, p.(phase := phase))
  {
    var (cells, phase) := Work(m, now, mem, p.todo[0], p.phase);
    var i := p.phase.i;
    if p.phase.WriteMark? {
      assert cells == v[i := cells[i]];
      assert Filling(v, i, cells[i]);
    } else {
      assert cells == v[i := cells[i]];
    }
  }

  lemma WriterBuries(m: Machine, now: int, mem: Memory, v0: seq<Cell>, v: seq<Cell>, p: Proc)
    requires MemoryOk(m, mem) && ProcOk(m, p) && |v0| == |v| == m.Size() && WriterOk(m, v0, v, mem.cells, p)
    requires Sound(v) && (p.phase.BuryMark? || p.phase.SweepLook?)
    ensures var (cells, phase) := Work(m, now, mem, p.todo[0], p.phase);
            WriterMoves(m, v0, v, cells, p.(phase := phase))
  {
    var (cells, phase) := Work(m, now, mem, p.todo[0], p.phase);
    var i := p.phase.i;
    if cells != v {
      assert v[i].mark == Filled;
      assert Burying(v, i, cells[i]) && cells == v[i := cells[i]];
    }
  }

  lemma WriterLeaves(m: Machine, mem: Memory, v0: seq<Cell>, v: seq<Cell>, p: Proc)
    requires MemoryOk(m, mem) && ProcOk(m, p) && |v0| == |v| == m.Size() && WriterOk(m, v0, v, mem.cells, p)
    requires Sound(v) && Leaving(p.phase)
    ensures WriterMoves(m, v0, v, mem.cells, Released(m, p))
  {
    ReleasedLocal(m, p);
    if p.phase.ScanLeave? && p.phase.k == m.Size() && p.phase.goal.Holder? {
      FindComplete(v, p.phase.h, p.phase.goal);
    }
  }

  lemma WriterStep(m: Machine, now: int, mem: Memory, v0: seq<Cell>, v: seq<Cell>, p: Proc)
    requires MemoryOk(m, mem) && ProcOk(m, p) && |v0| == |v| == m.Size() && WriterOk(m, v0, v, mem.cells, p)
    requires Sound(v) && Relies(m, mem, p) && StepProc(m, now, mem, p).Moved?
    ensures var move := StepProc(m, now, mem, p); WriterMoves(m, v0, v, move.mem.cells, move.proc)
  {
    WantedInRange(m, p);
    HeldInRange(m, p);
    if p.phase.Idle? {
      BeginLocal(m, p);
    } else if Waits(p.phase) {
      AdmittedLocal(m, p.todo[0], p.phase);
    } else if Leaving(p.phase) {
      WriterLeaves(m, mem, v0, v, p);
    } else if Reads(p.phase) {
      WriterScans(m, now, mem, v0, v, p);
    } else if p.phase.BuryMark? || p.phase.SweepLook? {
      WriterBuries(m, now, mem, v0, v, p);
    } else {
      WriterWrites(m, now, mem, v0, v, p);
    }
  }

  // What the writer's operations report.

  /** The first i cells were judged, each by its own clock reading, and `count` of them buried. */
  ghost predicate SweptTo(v0: seq<Cell>, v: seq<Cell>, i: nat, count: nat, clock: seq<int>) {
    && |v| == |v0| && |clock| == i <= |v0|
    && (forall n :: 0 <= n < i ==> v[n] == SweptCell(v0[n], clock[n]))
    && (forall n :: i <= n < |v0| ==> v[n] == v0[n])
    && count + |Live(v)| == |Live(v0)|
  }

  lemma SweptOne(v0: seq<Cell>, v: seq<Cell>, i: nat, count: nat, clock: seq<int>, now: int)
    requires SweptTo(v0, v, i, count, clock) && Sound(v) && i < |v|
    ensures SweptTo(v0, v[i := SweptCell(v[i], now)], i + 1, if Expired(v[i], now) then count + 1
      else count, clock + [now])
  {
    if Expired(v[i], now) {
      LiveAt(v, i);
      BuryLive(v, i);
    } else {
      assert v[i := v[i]] == v;
    }
  }

  /** The cell a sweeping process comes to next, and how many it has buried. */
  function SweepAt(p: Phase): (nat, nat)
    requires p.SweepWait? || p.SweepLook? || p.SweepLeave?
  {
    match p
    case SweepWait(i, count) => (i, count)
    case SweepLook(i, count) => (i, count)
    case SweepLeave(i, count) => (i, count)
  }

  lemma SweepJudges(m: Machine, now: int, mem: Memory, p: Proc)
    requires MemoryOk(m, mem) && ProcOk(m, p) && p.phase.SweepLook? && Tidy(mem.cells)
    ensures var (cells, phase) := Work(m, now, mem, p.todo[0], p.phase);
            var i, c := p.phase.i, mem.cells[p.phase.i];
            && (phase.SweepLook? || phase.SweepLeave?)
            && cells == mem.cells[i := SweptCell(c, now)]
            && SweepAt(phase) == (i + 1, if Expired(c, now) then p.phase.count + 1 else p.phase.count)
  {
    var i := p.phase.i;
    assert mem.cells[i := mem.cells[i]] == mem.cells;
  }

  /** A get, set or delete of the writer ends with the store's answer, and the cells hold the store's next state. */
  lemma WriterEnds(m: Machine, mem: Memory, v0: seq<Cell>, v: seq<Cell>, p: Proc)
    requires MemoryOk(m, mem) && ProcOk(m, p) && |v0| == |v| == m.Size() && WriterOk(m, v0, v, mem.cells, p)
    requires !p.phase.Idle? && Leaving(p.phase) && Released(m, p).phase.Idle? && !p.todo[0].OpCollect?
    ensures var o := Released(m, p).done[|p.done|];
            && o.op == p.todo[0]
            && Apply(StoreOf(v0), m.Size(), Solo.CommandOf(o.op, o.number)) == (StoreOf(mem.cells), o.reply)
  {
    var s, op := StoreOf(v0), p.todo[0];
    match p.phase
    case ScanLeave(goal, h, k, _) =>
      FindIsLookup(v0, s, h, op.key);
      FindIsRoom(v0, s, h);
      LiveOwned(v0, op.key);
    case ReadLeave(i, value) =>
      LiveAt(v0, i);
    case WriteLeave(i, d) =>
      LiveOwned(v0, op.key);
      FillIsSet(v0, s, i, mem.cells[i]);
    case BuryLeave(i) =>
      BuryIsRemove(v0, s, i);
    case _ =>
  }

  // The readers.

  ghost predicate AbsentSince(run: seq<State>, w: nat, b: nat, t: nat, key: Text)
    requires t < |run|
  {
    exists u :: b <= u <= t && !Owned(Seen(run, w, u), key)
  }

  ghost predicate HeldSince(run: seq<State>, w: nat, b: nat, t: nat, key: Text, i: nat, value: Text)
    requires t < |run|
  {
    exists u :: b <= u <= t && HoldsValue(Seen(run, w, u), i, key, value)
  }

  predicate HoldsValue(v: seq<Cell>, i: nat, key: Text, value: Text) {
    i < |v| && Hit(v[i], Holder(key)) && v[i].value == value
  }

  /** The key stands in a cell that a scan from h visits as the k-th or later. */
  ghost predicate Ahead(m: Machine, v: seq<Cell>, h: nat, k: nat, key: Text) {
    exists n :: k <= n < m.Size() && m.Visit(h, n) < |v| && Hit(v[m.Visit(h, n)], Holder(key))
  }

  /** The key stands in cell i, or has stood there since b with the value that the cell has kept. */
  ghost predicate Sighted(run: seq<State>, w: nat, b: nat, t: nat, key: Text, i: nat)
    requires t < |run|
  {
    var v := Seen(run, w, t);
    i < |v| && (Hit(v[i], Holder(key)) || (v[i].mark == Rip && HeldSince(run, w, b, t, key, i, v[i].value)))
  }

  /** What is known about a get that began at b. */
  ghost predicate ReaderOk(m: Machine, run: seq<State>, w: nat, b: nat, t: nat, p: Proc)
    requires t < |run| && ProcOk(m, p)
  {
    p.phase.Idle? ||
    (p.todo[0].OpGet? &&
     var key, v := p.todo[0].key, Seen(run, w, t);
     match p.phase
     case ScanWait(_, h, k, _) => AbsentSince(run, w, b, t, key) || Ahead(m, v, h, k, key)
     case ScanLook(_, h, k, _) => AbsentSince(run, w, b, t, key) || Ahead(m, v, h, k, key)
     case ScanLeave(_, h, k, _) => AbsentSince(run, w, b, t, key) || Ahead(m, v, h, k, key)
     case ScanFound(_, h, k) => Sighted(run, w, b, t, key, m.Visit(h, k))
     case ReadWait(i) => Sighted(run, w, b, t, key, i)
     case ReadCopy(i) => Sighted(run, w, b, t, key, i)
     case ReadLeave(i, value) => HeldSince(run, w, b, t, key, i, value)
     case _ => true)
  }

  /** A reader that rests loses nothing when another process steps. */
  lemma ReaderRests(m: Machine, run: seq<State>, w: nat, b: nat, t: nat, p: Proc)
    requires t + 1 < |run| && b <= t && ProcOk(m, p) && ReaderOk(m, run, w, b, t, p)
    requires Sound(Seen(run, w, t)) && Evolves(Seen(run, w, t), Seen(run, w, t + 1))
    ensures ReaderOk(m, run, w, b, t + 1, p)
  {
    if !p.phase.Idle? {
      var key := p.todo[0].key;
      match p.phase
      case ScanWait(_, h, k, _) => StillAhead(m, run, w, b, t, h, k, key);
      case ScanLook(_, h, k, _) => StillAhead(m, run, w, b, t, h, k, key);
      case ScanLeave(_, h, k, _) => StillAhead(m, run, w, b, t, h, k, key);
      case ScanFound(_, h, k) => StillSighted(run, w, b, t, key, m.Visit(h, k));
      case ReadWait(i) => StillSighted(run, w, b, t, key, i);
      case ReadCopy(i) => StillSighted(run, w, b, t, key, i);
      case ReadLeave(i, value) => StillHeld(run, w, b, t, key, i, value);
      case _ =>
    }
  }

  lemma StillHeld(run: seq<State>, w: nat, b: nat, t: nat, key: Text, i: nat, value: Text)
    requires t + 1 < |run| && HeldSince(run, w, b, t, key, i, value)
    ensures HeldSince(run, w, b, t + 1, key, i, value)
  {
    var u :| b <= u <= t && HoldsValue(Seen(run, w, u), i, key, value);
    assert b <= u <= t + 1;
  }

  lemma StillAhead(m: Machine, run: seq<State>, w: nat, b: nat, t: nat, h: nat, k: nat, key: Text)
    requires t + 1 < |run| && b <= t && Sound(Seen(run, w, t)) && Evolves(Seen(run, w, t), Seen(run, w, t + 1))
    requires AbsentSince(run, w, b, t, key) || Ahead(m, Seen(run, w, t), h, k, key)
    ensures AbsentSince(run, w, b, t + 1, key) || Ahead(m, Seen(run, w, t + 1), h, k, key)
  {
    var v, v' := Seen(run, w, t), Seen(run, w, t + 1);
    if u :| b <= u <= t && !Owned(Seen(run, w, u), key) {
      assert b <= u <= t + 1;
    } else {
      var n :| k <= n < m.Size() && m.Visit(h, n) < |v| && Hit(v[m.Visit(h, n)], Holder(key));
      CellStays(v, v', m.Visit(h, n), key);
    }
  }

  lemma StillSighted(run: seq<State>, w: nat, b: nat, t: nat, key: Text, i: nat)
    requires t + 1 < |run| && b <= t && Sound(Seen(run, w, t)) && Evolves(Seen(run, w, t), Seen(run, w, t + 1))
    requires Sighted(run, w, b, t, key, i)
    ensures Sighted(run, w, b, t + 1, key, i)
  {
    var v, v' := Seen(run, w, t), Seen(run, w, t + 1);
    CellStays(v, v', i, key);
    if Hit(v[i], Holder(key)) {
      assert HoldsValue(v, i, key, v[i].value);
      assert HeldSince(run, w, b, t, key, i, v[i].value);
    }
    if v'[i].mark == Rip {
      StillHeld(run, w, b, t, key, i, v[i].value);
    }
  }

  lemma OwnedAhead(m: Machine, v: seq<Cell>, h: nat, key: Text)
    requires |v| == m.Size() && h < |v| && Owned(v, key)
    ensures Ahead(m, v, h, 0, key)
  {
    var i :| 0 <= i < |v| && Hit(v[i], Holder(key));
    var n := if i >= h then i - h else i + |v| - h;
    assert m.Visit(h, n) == i;
  }

  /** Under a lock a reader sees the cells as they are seen between writes. */
  lemma SeesCell(m: Machine, s: State, w: nat, v0: seq<Cell>, v: seq<Cell>, j: nat, x: nat)
    requires Inv(m, s) && w < |s.procs| && j < |s.procs| && j != w && Reads(s.procs[j].phase)
    requires |v0| == |v| == m.Size() && WriterOk(m, v0, v, s.mem.cells, s.procs[w])
    requires x < m.Size() && SegmentHeld(m, s.procs[j].phase) == m.Segment(x)
    ensures s.mem.cells[x] == v[x]
  {
    if Midway(s.procs[w].phase) {
      Alone(m, s, w, j);
    }
  }

  /** A step of the reader itself, which leaves the cells alone. */
  lemma ReaderMoves(m: Machine, run: seq<State>, w: nat, b: nat, t: nat, now: int, p: Proc)
    requires t + 1 < |run| && b <= t && MemoryOk(m, run[t].mem) && ProcOk(m, p) && OnlyGets(p.todo)
    requires p.phase.Idle? || ReaderOk(m, run, w, b, t + 1, p)
    requires StepProc(m, now, run[t].mem, p).Moved? && |Seen(run, w, t + 1)| == m.Size()
    requires forall x :: 0 <= x < m.Size() && Reads(p.phase) && SegmentHeld(m, p.phase) == m.Segment(x) ==>
               run[t].mem.cells[x] == Seen(run, w, t + 1)[x]
    ensures var p' := StepProc(m, now, run[t].mem, p).proc; ProcOk(m, p') && ReaderOk(m, run, w, b, t + 1, p')
  {
    StepLocal(m, now, run[t].mem, p);
    WantedInRange(m, p);
    HeldInRange(m, p);
    var v, key := Seen(run, w, t + 1), p.todo[0].key;
    if p.phase.Idle? {
      BeginLocal(m, p);
      if Owned(v, key) {
        OwnedAhead(m, v, m.home(key), key);
      }
    } else if p.phase.ScanLook? {
      ReaderLooks(m, run, w, b, t, now, p);
    } else if p.phase.ReadCopy? {
      var i := p.phase.i;
      if Hit(v[i], Holder(key)) {
        assert HoldsValue(v, i, key, v[i].value);
      }
    }
  }

  lemma ReaderLooks(m: Machine, run: seq<State>, w: nat, b: nat, t: nat, now: int, p: Proc)
    requires t + 1 < |run| && b <= t && MemoryOk(m, run[t].mem) && ProcOk(m, p) && OnlyGets(p.todo)
    requires p.phase.ScanLook? && ReaderOk(m, run, w, b, t + 1, p) && |Seen(run, w, t + 1)| == m.Size()
    requires var x := m.Visit(p.phase.h, p.phase.k); run[t].mem.cells[x] == Seen(run, w, t + 1)[x]
    ensures var phase := Work(m, now, run[t].mem, p.todo[0], p.phase).1;
            ProcOk(m, p.(phase := phase)) && ReaderOk(m, run, w, b, t + 1, p.(phase := phase))
  {
    WorkLocal(m, now, run[t].mem, p.todo[0], p.phase);
    var v, key, h, k := Seen(run, w, t + 1), p.todo[0].key, p.phase.h, p.phase.k;
    if !Hit(v[m.Visit(h, k)], Holder(key)) && Ahead(m, v, h, k, key) {
      var n :| k <= n < m.Size() && m.Visit(h, n) < |v| && Hit(v[m.Visit(h, n)], Holder(key));
      assert n >= k + 1;
    }
  }

  // Runs.

  function Began(run: seq<State>, w: nat, t: nat): seq<Cell>
    requires t < |run|
  {
    run[Since(run, w, t)].mem.cells
  }

  ghost predicate RunOk(m: Machine, run: seq<State>, w: nat, t: nat)
    requires t < |run|
  {
    && Inv(m, run[t]) && OneWriter(run[t], w)
    && |Seen(run, w, t)| == |Began(run, w, t)| == m.Size() && Sound(Seen(run, w, t))
    && WriterOk(m, Began(run, w, t), Seen(run, w, t), run[t].mem.cells, run[t].procs[w])
    && forall j :: 0 <= j < |run[t].procs| && j != w ==> Follows(m, run, w, t, j)
  }

  ghost predicate Follows(m: Machine, run: seq<State>, w: nat, t: nat, j: nat)
    requires t < |run| && j < |run[t].procs| && ProcOk(m, run[t].procs[j])
  {
    ReaderOk(m, run, w, Since(run, j, t), t, run[t].procs[j])
  }

  lemma StepGets(m: Machine, s: State, w: nat, j: nat, now: int, s': State)
    requires Inv(m, s) && Steps(m, s, j, now, s') && OneWriter(s, w)
    ensures OneWriter(s', w)
  {
    WantedInRange(m, s.procs[j]);
    HeldInRange(m, s.procs[j]);
  }

  lemma RunStarts(m: Machine, run: seq<State>, w: nat)
    requires Run(m, run) && OneWriter(run[0], w)
    ensures RunOk(m, run, w, 0)
  {
    RunInv(m, run, 0);
  }

  lemma WriterRunStep(m: Machine, run: seq<State>, w: nat, t: nat, now: int)
    requires t + 1 < |run| && RunOk(m, run, w, t) && Inv(m, run[t + 1]) && Steps(m, run[t], w, now, run[t + 1])
    ensures RunOk(m, run, w, t + 1)
    ensures Evolves(Seen(run, w, t), Seen(run, w, t + 1))
  {
    var s := run[t];
    StepGets(m, s, w, w, now, run[t + 1]);
    WriterStep(m, now, s.mem, Began(run, w, t), Seen(run, w, t), s.procs[w]);
    EvolvesSound(Seen(run, w, t), Seen(run, w, t + 1));
    var t' := t + 1;
    forall j | 0 <= j < |run[t'].procs| && j != w
      ensures Follows(m, run, w, t', j)
    {
      assert Follows(m, run, w, t, j);
      ReaderRests(m, run, w, Since(run, j, t), t, s.procs[j]);
    }
  }

  lemma ReaderGoes(m: Machine, run: seq<State>, w: nat, t: nat, j: nat, now: int)
    requires t + 1 < |run| && RunOk(m, run, w, t) && Steps(m, run[t], j, now, run[t + 1]) && j != w
    requires Seen(run, w, t + 1) == Seen(run, w, t)
    requires ReaderOk(m, run, w, Since(run, j, t), t + 1, run[t].procs[j])
    ensures ProcOk(m, run[t + 1].procs[j]) && Follows(m, run, w, t + 1, j)
  {
    var s, v := run[t], Seen(run, w, t);
    forall x | 0 <= x < m.Size() && Reads(s.procs[j].phase) && SegmentHeld(m, s.procs[j].phase) == m.Segment(x)
      ensures s.mem.cells[x] == v[x]
    {
      SeesCell(m, s, w, Began(run, w, t), v, j, x);
    }
    ReaderMoves(m, run, w, Since(run, j, t), t, now, s.procs[j]);
  }

  lemma ReaderRunStep(m: Machine, run: seq<State>, w: nat, t: nat, j: nat, now: int)
    requires t + 1 < |run| && RunOk(m, run, w, t) && Inv(m, run[t + 1]) && Steps(m, run[t], j, now, run[t + 1])
      && j != w
    ensures RunOk(m, run, w, t + 1)
    ensures Seen(run, w, t + 1) == Seen(run, w, t)
  {
    var s, v := run[t], Seen(run, w, t);
    StepGets(m, s, w, j, now, run[t + 1]);
    StepLocal(m, now, s.mem, s.procs[j]);
    assert !Writes(s.procs[j].phase);
    assert run[t + 1].mem.cells == s.mem.cells;
    var t' := t + 1;
    forall k | 0 <= k < |run[t'].procs| && k != w
      ensures Follows(m, run, w, t', k)
    {
      assert Follows(m, run, w, t, k);
      ReaderRests(m, run, w, Since(run, k, t), t, s.procs[k]);
      if k == j {
        ReaderGoes(m, run, w, t, j, now);
      }
    }
  }

  lemma RunOkStep(m: Machine, run: seq<State>, w: nat, t: nat)
    requires Run(m, run) && t + 1 < |run| && RunOk(m, run, w, t)
    ensures RunOk(m, run, w, t + 1) && Evolves(Seen(run, w, t), Seen(run, w, t + 1))
  {
    RunInv(m, run, t + 1);
    var j, now := RunStep(m, run, t);
    if j == w {
      WriterRunStep(m, run, w, t, now);
    } else {
      ReaderRunStep(m, run, w, t, j, now);
    }
  }

  lemma RunHolds(m: Machine, run: seq<State>, w: nat, t: nat)
    requires Run(m, run) && OneWriter(run[0], w) && t < |run|
    ensures RunOk(m, run, w, t)
  {
    RunStarts(m, run, w);
    var u := 0;
    while u < t
      invariant u <= t && RunOk(m, run, w, u)
    {
      RunOkStep(m, run, w, u);
      u := u + 1;
    }
  }

  // What gets report.

  /** The operation of process j that the step after the t-th state completes. */
  ghost predicate Completes(run: seq<State>, j: nat, t: nat, o: Outcome)
    requires t + 1 < |run|
  {
    && j < |run[t].procs| && j < |run[t + 1].procs|
    && run[t + 1].procs[j].done == run[t].procs[j].done + [o]
  }

  lemma GetEnds(m: Machine, run: seq<State>, w: nat, b: nat, t: nat, p: Proc) returns (u: nat)
    requires t < |run| && b <= t && m.Ok() && ProcOk(m, p) && OnlyGets(p.todo) && !p.phase.Idle?
      && ReaderOk(m, run, w, b, t, p)
    requires Leaving(p.phase) && Released(m, p).phase.Idle?
    requires forall u :: b <= u <= t ==> Sound(Seen(run, w, u))
    ensures b <= u <= t
    ensures var o := Released(m, p).done[|p.done|];
            o.op == p.todo[0] && o.reply == Apply(StoreAt(run, w, u), m.Size(), Command.Get(o.op.key)).1
  {
    var key := p.todo[0].key;
    if p.phase.ReadLeave? {
      u :| b <= u <= t && HoldsValue(Seen(run, w, u), p.phase.i, key, p.phase.value);
      LiveAt(Seen(run, w, u), p.phase.i);
    } else {
      u :| b <= u <= t && !Owned(Seen(run, w, u), key);
      LiveOwned(Seen(run, w, u), key);
    }
  }

  /** With one writer, every get of another process reports what the store has for its key in some state
      between the beginning and the end of the get. */
  lemma GetsAreAtomic(m: Machine, run: seq<State>, w: nat, j: nat, t: nat, o: Outcome) returns (u: nat)
    requires Run(m, run) && OneWriter(run[0], w)
    requires t + 1 < |run| && j != w && Completes(run, j, t, o)
    ensures Since(run, j, t) <= u <= t
    ensures o.op.OpGet? && o.reply == Apply(StoreAt(run, w, u), m.Size(), Command.Get(o.op.key)).1
  {
    forall u | 0 <= u <= t ensures Sound(Seen(run, w, u)) {
      RunHolds(m, run, w, u);
    }
    RunHolds(m, run, w, t);
    assert Follows(m, run, w, t, j);
    var k, now := RunStep(m, run, t);
    var p := run[t].procs[j];
    assert k == j;
    CompletingStep(m, now, run[t].mem, p);
    u := GetEnds(m, run, w, Since(run, j, t), t, p);
  }

  /** Only giving up the last lock completes an operation. */
  lemma CompletingStep(m: Machine, now: int, mem: Memory, p: Proc)
    requires MemoryOk(m, mem) && ProcOk(m, p) && StepProc(m, now, mem, p).Moved?
    requires StepProc(m, now, mem, p).proc.done != p.done
    ensures !p.phase.Idle? && Leaving(p.phase) && Released(m, p).phase.Idle?
    ensures StepProc(m, now, mem, p).proc == Released(m, p) && StepProc(m, now, mem, p).mem.cells == mem.cells
    ensures |Released(m, p).done| == |p.done| + 1
    ensures var o := Released(m, p).done[|p.done|];
            && o.op == p.todo[0]
            && (o.op.OpCollect? ==>
                  p.phase.SweepLeave? && p.phase.i == m.Size() && o.reply == Done && o.number == p.phase.count)
  {
    WantedInRange(m, p);
    HeldInRange(m, p);
  }

  // What the writer's operations do.

  /** Each reading of `clock` is one with which the writer judged that cell, since state b and before state t. */
  ghost predicate Judged(m: Machine, run: seq<State>, w: nat, b: nat, t: nat, clock: seq<int>)
    requires t < |run|
  {
    forall n :: 0 <= n < |clock| ==> JudgedSince(m, run, w, b, t, n, clock[n])
  }

  ghost predicate JudgedSince(m: Machine, run: seq<State>, w: nat, b: nat, t: nat, n: nat, now: int) {
    exists u :: b <= u < t && JudgedIn(m, run, w, u, n, now)
  }

  ghost predicate JudgedIn(m: Machine, run: seq<State>, w: nat, u: nat, n: nat, now: int) {
    && u + 1 < |run| && w < |run[u].procs|
    && run[u].procs[w].phase.SweepLook? && run[u].procs[w].phase.i == n
    && Steps(m, run[u], w, now, run[u + 1])
  }

  predicate Sweeping(p: Phase) {
    p.SweepWait? || p.SweepLook? || p.SweepLeave?
  }

  ghost predicate ClockOk(m: Machine, run: seq<State>, w: nat, t: nat, clock: seq<int>)
    requires t < |run| && w < |run[t].procs| && Sweeping(run[t].procs[w].phase)
  {
    var (i, count) := SweepAt(run[t].procs[w].phase);
    SweptTo(Began(run, w, t), run[t].mem.cells, i, count, clock) && Judged(m, run, w, Since(run, w, t), t, clock)
  }

  lemma JudgedLater(m: Machine, run: seq<State>, w: nat, b: nat, t: nat, clock: seq<int>)
    requires t + 1 < |run| && Judged(m, run, w, b, t, clock)
    ensures Judged(m, run, w, b, t + 1, clock)
  {
    var t' := t + 1;
    forall n | 0 <= n < |clock| ensures JudgedSince(m, run, w, b, t', n, clock[n]) {
      assert JudgedSince(m, run, w, b, t, n, clock[n]);
    }
  }

  lemma JudgedOne(m: Machine, run: seq<State>, w: nat, b: nat, t: nat, clock: seq<int>, now: int)
    requires t + 1 < |run| && b <= t && Judged(m, run, w, b, t, clock) && JudgedIn(m, run, w, t, |clock|, now)
    ensures Judged(m, run, w, b, t + 1, clock + [now])
  {
    JudgedLater(m, run, w, b, t, clock);
    assert JudgedSince(m, run, w, b, t + 1, |clock|, now);
  }

  /** The writer moves on in its sweep. */
  lemma SweepMoves(m: Machine, run: seq<State>, w: nat, t: nat, now: int, clock: seq<int>) returns (clock': seq<int>)
    requires t + 1 < |run| && RunOk(m, run, w, t) && Steps(m, run[t], w, now, run[t + 1])
    requires Sweeping(run[t].procs[w].phase) && Sweeping(run[t + 1].procs[w].phase) && ClockOk(m, run, w, t, clock)
    ensures ClockOk(m, run, w, t + 1, clock')
  {
    var s, p := run[t], run[t].procs[w];
    WantedInRange(m, p);
    HeldInRange(m, p);
    assert Began(run, w, t + 1) == Began(run, w, t);
    if p.phase.SweepLook? {
      clock' := SweepLooksOn(m, run, w, t, now, clock);
    } else {
      JudgedLater(m, run, w, Since(run, w, t), t, clock);
      clock' := clock;
    }
  }

  lemma SweepLooksOn(m: Machine, run: seq<State>, w: nat, t: nat, now: int, clock: seq<int>) returns (clock': seq<int>)
    requires t + 1 < |run| && RunOk(m, run, w, t) && Steps(m, run[t], w, now, run[t + 1])
    requires run[t].procs[w].phase.SweepLook? && ClockOk(m, run, w, t, clock)
    ensures Sweeping(run[t + 1].procs[w].phase) && ClockOk(m, run, w, t + 1, clock')
  {
    var s, p := run[t], run[t].procs[w];
    SweptOne(Began(run, w, t), s.mem.cells, p.phase.i, p.phase.count, clock, now);
    SweepJudges(m, now, s.mem, p);
    assert JudgedIn(m, run, w, t, p.phase.i, now);
    JudgedOne(m, run, w, Since(run, w, t), t, clock, now);
    clock' := clock + [now];
  }

  lemma SweepBegins(m: Machine, run: seq<State>, w: nat, t: nat, now: int) returns (clock: seq<int>)
    requires t + 1 < |run| && RunOk(m, run, w, t) && Steps(m, run[t], w, now, run[t + 1])
    requires run[t].procs[w].phase.Idle? && Sweeping(run[t + 1].procs[w].phase)
    ensures ClockOk(m, run, w, t + 1, clock)
  {
    clock := [];
    assert Since(run, w, t + 1) == t;
  }

  lemma BeforeSweep(m: Machine, now: int, mem: Memory, p: Proc)
    requires MemoryOk(m, mem) && ProcOk(m, p) && StepProc(m, now, mem, p).Moved?
    requires !p.phase.Idle? && Sweeping(StepProc(m, now, mem, p).proc.phase)
    ensures Sweeping(p.phase)
  {
    WantedInRange(m, p);
    HeldInRange(m, p);
  }

  /** A sweep under way has judged the cells behind it. */
  ghost predicate SweepOk(m: Machine, run: seq<State>, w: nat, t: nat)
    requires t < |run| && w < |run[t].procs|
  {
    Sweeping(run[t].procs[w].phase) ==> exists clock :: ClockOk(m, run, w, t, clock)
  }

  lemma SweepOkReader(m: Machine, run: seq<State>, w: nat, t: nat, j: nat, now: int)
    requires t + 1 < |run| && RunOk(m, run, w, t) && Inv(m, run[t + 1]) && Steps(m, run[t], j, now, run[t + 1])
      && j != w
    requires SweepOk(m, run, w, t)
    ensures SweepOk(m, run, w, t + 1)
  {
    ReaderRunStep(m, run, w, t, j, now);
    if Sweeping(run[t + 1].procs[w].phase) {
      var clock :| ClockOk(m, run, w, t, clock);
      JudgedLater(m, run, w, Since(run, w, t), t, clock);
      assert ClockOk(m, run, w, t + 1, clock);
    }
  }

  lemma SweepOkWriter(m: Machine, run: seq<State>, w: nat, t: nat, now: int)
    requires t + 1 < |run| && RunOk(m, run, w, t) && Steps(m, run[t], w, now, run[t + 1])
    requires SweepOk(m, run, w, t)
    ensures SweepOk(m, run, w, t + 1)
  {
    if Sweeping(run[t + 1].procs[w].phase) {
      if run[t].procs[w].phase.Idle? {
        var clock := SweepBegins(m, run, w, t, now);
      } else {
        BeforeSweep(m, now, run[t].mem, run[t].procs[w]);
        var clock :| ClockOk(m, run, w, t, clock);
        var clock' := SweepMoves(m, run, w, t, now, clock);
      }
    }
  }

  lemma SweepOkStep(m: Machine, run: seq<State>, w: nat, t: nat)
    requires Run(m, run) && OneWriter(run[0], w) && t + 1 < |run| && w < |run[t].procs|
    requires SweepOk(m, run, w, t)
    ensures w < |run[t + 1].procs| && SweepOk(m, run, w, t + 1)
  {
    RunHolds(m, run, w, t);
    RunInv(m, run, t);
    RunInv(m, run, t + 1);
    var j, now := RunStep(m, run, t);
    if j == w {
      SweepOkWriter(m, run, w, t, now);
    } else {
      SweepOkReader(m, run, w, t, j, now);
    }
  }

  lemma {:induction false} SweepHolds(m: Machine, run: seq<State>, w: nat, t: nat)
    requires Run(m, run) && OneWriter(run[0], w) && t < |run|
    ensures w < |run[t].procs| && SweepOk(m, run, w, t)
  {
    if t > 0 {
      SweepHolds(m, run, w, t - 1);
      SweepOkStep(m, run, w, t - 1);
    }
  }

  /** An outcome is the store's answer to a command for the same operation; a collection reports how many
      entries its sweep removed. */
  ghost predicate Explains(n: nat, before: Store, o: Outcome, c: Command, after: Store) {
    && Apply(before, n, c) == (after, o.reply)
    && if o.op.OpCollect? then c.Sweep? && o.number == |before.live| - |after.live|
      else c == Solo.CommandOf(o.op, o.number)
  }

  lemma CollectEnds(m: Machine, run: seq<State>, w: nat, t: nat, o: Outcome) returns (clock: seq<int>)
    requires Run(m, run) && OneWriter(run[0], w)
    requires t + 1 < |run| && Completes(run, w, t, o) && o.op.OpCollect?
    ensures |clock| == |Seen(run, w, Since(run, w, t))| == m.Size() && Judged(m, run, w, Since(run, w, t), t, clock)
    ensures Seen(run, w, t + 1) == Cells.Swept(Seen(run, w, Since(run, w, t)), clock)
    ensures Explains(m.Size(), StoreAt(run, w, Since(run, w, t)), o, Sweep(Dead(Seen(run, w, Since(run, w, t)), clock)),
                     StoreAt(run, w, t + 1))
  {
    RunHolds(m, run, w, t);
    SweepHolds(m, run, w, t);
    WriterCompletes(m, run, w, t, o);
    clock :| ClockOk(m, run, w, t, clock);
    SweptAll(Began(run, w, t), run[t].mem.cells, clock, o);
  }

  lemma SweptAll(v0: seq<Cell>, v: seq<Cell>, clock: seq<int>, o: Outcome)
    requires Sound(v0) && o.op.OpCollect? && o.reply == Done && o.number >= 0 && SweptTo(v0, v, |v0|, o.number, clock)
    ensures v == Cells.Swept(v0, clock)
    ensures Explains(|v0|, StoreOf(v0), o, Sweep(Dead(v0, clock)), StoreOf(v))
  {
    SweptIsSweep(v0, StoreOf(v0), clock);
    HoldsIs(Cells.Swept(v0, clock), Apply(StoreOf(v0), |v0|, Sweep(Dead(v0, clock))).0);
    assert v == Cells.Swept(v0, clock);
  }

  lemma HoldsIs(v: seq<Cell>, s: Store)
    requires Holds(v, s)
    ensures s == StoreOf(v)
  {
  }

  lemma WriterCompletes(m: Machine, run: seq<State>, w: nat, t: nat, o: Outcome)
    requires Run(m, run) && t + 1 < |run| && RunOk(m, run, w, t) && Completes(run, w, t, o)
    ensures var p := run[t].procs[w];
            && !p.phase.Idle? && Leaving(p.phase) && Released(m, p).phase.Idle? && o.op == p.todo[0]
            && |Released(m, p).done| == |p.done| + 1 && Released(m, p).done[|p.done|] == o
            && run[t + 1].procs[w] == Released(m, p) && run[t + 1].mem.cells == run[t].mem.cells
            && Seen(run, w, t + 1) == run[t].mem.cells && Seen(run, w, Since(run, w, t)) == Began(run, w, t)
            && (o.op.OpCollect? ==>
                  p.phase.SweepLeave? && p.phase.i == m.Size() && o.reply == Done && o.number == p.phase.count)
  {
    var k, now := RunStep(m, run, t);
    var p := run[t].procs[w];
    assert k == w;
    CompletingStep(m, now, run[t].mem, p);
    assert o == run[t + 1].procs[w].done[|p.done|];
    SinceIdle(run, w, t);
  }

  lemma {:induction false} SinceIdle(run: seq<State>, w: nat, t: nat)
    requires t < |run|
    ensures Seen(run, w, Since(run, w, t)) == run[Since(run, w, t)].mem.cells
  {
    if !(t == 0 || (w < |run[t].procs| && run[t].procs[w].phase.Idle?)) {
      SinceIdle(run, w, t - 1);
    }
  }

  /** Every operation of the only writer takes the store from the state the operation began with to the one it
      ends with, as its command does, and reports the store's answer. */
  lemma WriterAnswers(m: Machine, run: seq<State>, w: nat, t: nat, o: Outcome) returns (c: Command)
    requires Run(m, run) && OneWriter(run[0], w)
    requires t + 1 < |run| && Completes(run, w, t, o)
    ensures Explains(m.Size(), StoreAt(run, w, Since(run, w, t)), o, c, StoreAt(run, w, t + 1))
  {
    RunHolds(m, run, w, t);
    WriterCompletes(m, run, w, t, o);
    if o.op.OpCollect? {
      var clock := CollectEnds(m, run, w, t, o);
      c := Sweep(Dead(Seen(run, w, Since(run, w, t)), clock));
    } else {
      WriterEnds(m, run[t].mem, Began(run, w, t), Seen(run, w, t), run[t].procs[w]);
      c := Solo.CommandOf(o.op, o.number);
    }
  }

  // What deadlines sets store, for any process of any run.

  /** `d` is the deadline of set `op`, by the clock reading with which process j copied it in the u-th state. */
  ghost predicate DatedIn(m: Machine, run: seq<State>, j: nat, u: nat, op: Op, d: int) {
    && u + 1 < |run| && j < |run[u].procs| && op.OpSet?
    && run[u].procs[j].phase.WriteDeadline? && [op] <= run[u].procs[j].todo
    && exists now :: DatedBy(m, run, j, u, op, d, now)
  }

  ghost predicate DatedBy(m: Machine, run: seq<State>, j: nat, u: nat, op: Op, d: int, now: int)
    requires u + 1 < |run| && op.OpSet?
  {
    Steps(m, run[u], j, now, run[u + 1]) && d == ToInt32(op.ttl + now)
  }

  ghost predicate DatedSince(m: Machine, run: seq<State>, j: nat, b: nat, t: nat, op: Op, d: int) {
    if m.cfg.deadlines then exists u :: b <= u < t && DatedIn(m, run, j, u, op, d) else d == 0
  }

  predicate HasDate(p: Phase) {
    p.WriteValue? || p.WriteMark? || p.WriteLeave?
  }

  ghost predicate DateOk(m: Machine, run: seq<State>, j: nat, t: nat)
    requires t < |run|
  {
    j < |run[t].procs| && HasDate(run[t].procs[j].phase) ==>
      && run[t].procs[j].todo != []
      && DatedSince(m, run, j, Since(run, j, t), t, run[t].procs[j].todo[0], run[t].procs[j].phase.deadline)
  }

  lemma DatedLater(m: Machine, run: seq<State>, j: nat, b: nat, t: nat, op: Op, d: int)
    requires DatedSince(m, run, j, b, t, op, d)
    ensures DatedSince(m, run, j, b, t + 1, op, d)
  {
    if m.cfg.deadlines {
      var u :| b <= u < t && DatedIn(m, run, j, u, op, d);
      assert b <= u < t + 1;
    }
  }

  lemma DateMoves(m: Machine, run: seq<State>, j: nat, t: nat, now: int)
    requires t + 1 < |run| && Steps(m, run[t], j, now, run[t + 1]) && DateOk(m, run, j, t)
    ensures DateOk(m, run, j, t + 1)
  {
    var p, p' := run[t].procs[j], run[t + 1].procs[j];
    WantedInRange(m, p);
    HeldInRange(m, p);
    if HasDate(p'.phase) {
      assert Since(run, j, t + 1) == Since(run, j, t);
      if p.phase.WriteDeadline? {
        assert DatedBy(m, run, j, t, p.todo[0], p'.phase.deadline, now);
        assert DatedIn(m, run, j, t, p.todo[0], p'.phase.deadline);
      } else if HasDate(p.phase) {
        DatedLater(m, run, j, Since(run, j, t), t, p.todo[0], p.phase.deadline);
      }
    }
  }

  lemma DateStays(m: Machine, run: seq<State>, j: nat, k: nat, t: nat, now: int)
    requires t + 1 < |run| && Steps(m, run[t], k, now, run[t + 1]) && k != j && DateOk(m, run, j, t)
    ensures DateOk(m, run, j, t + 1)
  {
    if j < |run[t].procs| && HasDate(run[t].procs[j].phase) {
      assert Since(run, j, t + 1) == Since(run, j, t);
      DatedLater(m, run, j, Since(run, j, t), t, run[t].procs[j].todo[0], run[t].procs[j].phase.deadline);
    }
  }

  lemma {:induction false} DateHolds(m: Machine, run: seq<State>, j: nat, t: nat)
    requires Run(m, run) && t < |run|
    ensures DateOk(m, run, j, t)
  {
    if t > 0 {
      DateHolds(m, run, j, t - 1);
      var k, now := RunStep(m, run, t - 1);
      if k == j {
        DateMoves(m, run, j, t - 1, now);
      } else {
        DateStays(m, run, j, k, t - 1, now);
      }
    }
  }

  /** A granted set reports, and has stored, the sum of its time to live and a clock reading made while it was
      under way, or nothing where records have no deadlines: whatever the other processes do. */
  lemma SetsAreDated(m: Machine, run: seq<State>, j: nat, t: nat, o: Outcome)
    requires Run(m, run) && t + 1 < |run| && Completes(run, j, t, o) && o.op.OpSet? && o.reply == Done
    ensures DatedSince(m, run, j, Since(run, j, t), t, o.op, o.number)
  {
    DateHolds(m, run, j, t);
    RunInv(m, run, t);
    var k, now := RunStep(m, run, t);
    var p := run[t].procs[j];
    assert k == j;
    CompletingStep(m, now, run[t].mem, p);
    assert o == run[t + 1].procs[j].done[|p.done|];
  }

  /** The commands explain the outcomes one after the other, from the empty store. */
  ghost predicate Explained(n: nat, done: seq<Outcome>, cs: seq<Command>) {
    && |cs| == |done|
    && forall q :: 0 <= q < |done| ==>
      Explains(n, After(Empty, n, cs[..q]), done[q], cs[q], After(Empty, n, cs[..q + 1]))
  }

  lemma ExplainedMore(n: nat, done: seq<Outcome>, cs: seq<Command>, o: Outcome, c: Command, after: Store)
    requires Explained(n, done, cs) && Explains(n, After(Empty, n, cs), o, c, after)
    ensures Explained(n, done + [o], cs + [c]) && After(Empty, n, cs + [c]) == after
  {
    var more := cs + [c];
    assert more[..|cs|] == cs && more[..|cs| + 1] == more;
    forall q | 0 <= q < |done + [o]|
      ensures Explains(n, After(Empty, n, more[..q]), (done + [o])[q], more[q], After(Empty, n, more[..q + 1]))
    {
      if q < |done| {
        assert more[..q] == cs[..q] && more[..q + 1] == cs[..q + 1];
      }
    }
  }

  lemma StoreStarts(m: Machine, run: seq<State>, w: nat)
    requires Run(m, run)
    ensures StoreAt(run, w, 0) == Empty
  {
    BlankIsEmpty(run[0].mem.cells);
  }

  /** The outcomes of the only writer are the store's answers in program order, and between its operations the
      table is the store that those commands leave. */
  lemma {:induction false} WriterIsSequential(m: Machine, run: seq<State>, w: nat, t: nat) returns (cs: seq<Command>)
    requires Run(m, run) && OneWriter(run[0], w) && t < |run|
    ensures w < |run[t].procs| && Explained(m.Size(), run[t].procs[w].done, cs)
    ensures StoreAt(run, w, Since(run, w, t)) == After(Empty, m.Size(), cs)
  {
    if t == 0 {
      cs := [];
      StoreStarts(m, run, w);
    } else {
      cs := WriterIsSequential(m, run, w, t - 1);
      cs := SequentialStep(m, run, w, t - 1, cs);
    }
  }

  lemma SequentialStep(m: Machine, run: seq<State>, w: nat, t: nat, cs: seq<Command>) returns (cs': seq<Command>)
    requires Run(m, run) && OneWriter(run[0], w) && t + 1 < |run|
    requires w < |run[t].procs| && Explained(m.Size(), run[t].procs[w].done, cs)
    requires StoreAt(run, w, Since(run, w, t)) == After(Empty, m.Size(), cs)
    ensures w < |run[t + 1].procs| && Explained(m.Size(), run[t + 1].procs[w].done, cs')
    ensures StoreAt(run, w, Since(run, w, t + 1)) == After(Empty, m.Size(), cs')
  {
    cs' := cs;
    RunHolds(m, run, w, t);
    RunInv(m, run, t + 1);
    var j, now := RunStep(m, run, t);
    if j != w {
      ReaderRunStep(m, run, w, t, j, now);
    } else {
      StepDone(m, run[t], w, now, run[t + 1]);
      var done, done' := run[t].procs[w].done, run[t + 1].procs[w].done;
      if done' != done {
        var o := done'[|done|];
        WriterCompletes(m, run, w, t, o);
        var c := WriterAnswers(m, run, w, t, o);
        ExplainedMore(m.Size(), done, cs, o, c, StoreAt(run, w, t + 1));
        cs' := cs + [c];
      } else {
        NotIdle(m, now, run[t].mem, run[t].procs[w]);
      }
    }
  }

  lemma NotIdle(m: Machine, now: int, mem: Memory, p: Proc)
    requires MemoryOk(m, mem) && ProcOk(m, p) && StepProc(m, now, mem, p).Moved?
    requires StepProc(m, now, mem, p).proc.done == p.done
    ensures !StepProc(m, now, mem, p).proc.phase.Idle?
  {
    WantedInRange(m, p);
    HeldInRange(m, p);
  }

  /** The command by which the store moves when the writer marks a cell. */
  ghost predicate IsMove(op: Op, c: Command) {
    match op
    case OpSet(key, value, _) => c.Set? && c.key == key && c.entry.value == value
    case OpDel(key) => c == Del(key)
    case OpCollect => c.Sweep? && |c.dead| == 1
    case OpGet(_) => false
  }

  /** The store changes only in a step of the writer, and then by a command of the operation under way. */
  lemma StoreMoves(m: Machine, run: seq<State>, w: nat, t: nat)
    requires Run(m, run) && OneWriter(run[0], w) && t + 1 < |run|
    ensures w < |run[t].procs|
    ensures StoreAt(run, w, t + 1) == StoreAt(run, w, t)
            || (run[t].procs[w].todo != []
                && exists c :: IsMove(run[t].procs[w].todo[0], c)
                               && StoreAt(run, w, t + 1) == Apply(StoreAt(run, w, t), m.Size(), c).0)
  {
    RunHolds(m, run, w, t);
    RunInv(m, run, t + 1);
    var j, now := RunStep(m, run, t);
    if j != w {
      ReaderRunStep(m, run, w, t, j, now);
    } else {
      WriterRunStep(m, run, w, t, now);
      MoveIs(m, now, run[t].mem, Began(run, w, t), Seen(run, w, t), Seen(run, w, t + 1), run[t].procs[w]);
    }
  }

  lemma MoveIs(m: Machine, now: int, mem: Memory, v0: seq<Cell>, v: seq<Cell>, v': seq<Cell>, p: Proc)
    requires MemoryOk(m, mem) && ProcOk(m, p) && |v0| == |v| == m.Size() && WriterOk(m, v0, v, mem.cells, p)
    requires Sound(v) && Relies(m, mem, p) && StepProc(m, now, mem, p).Moved?
    requires v' == SeenNext(v, StepProc(m, now, mem, p).mem.cells, StepProc(m, now, mem, p).proc.phase)
    ensures StoreOf(v') == StoreOf(v)
            || (p.todo != [] && exists c :: IsMove(p.todo[0], c) && StoreOf(v') == Apply(StoreOf(v), m.Size(), c).0)
  {
    WantedInRange(m, p);
    HeldInRange(m, p);
    if p.phase.WriteMark? {
      MarkMoves(v, mem.cells, p.phase.i, p.todo[0].key);
      var c := mem.cells[p.phase.i].(mark := Filled);
      assert IsMove(p.todo[0], Command.Set(c.key, c.Entry()));
    } else if p.phase.BuryMark? {
      BuryMoves(v, p.phase.i);
      assert IsMove(p.todo[0], Command.Del(p.todo[0].key));
    } else if p.phase.SweepLook? && v' != v {
      SweepJudges(m, now, mem, p);
      BuryMoves(v, p.phase.i);
      assert IsMove(p.todo[0], Sweep({v[p.phase.i].key}));
    }
  }

  lemma BuryMoves(v: seq<Cell>, i: nat)
    requires Sound(v) && i < |v| && v[i].mark == Filled
    ensures StoreOf(v[i := v[i].(mark := Rip)]) == Apply(StoreOf(v), |v|, Del(v[i].key)).0
    ensures StoreOf(v[i := v[i].(mark := Rip)]) == Apply(StoreOf(v), |v|, Sweep({v[i].key})).0
  {
    BuryIsRemove(v, StoreOf(v), i);
  }

  lemma MarkMoves(v: seq<Cell>, cells: seq<Cell>, i: nat, key: Text)
    requires Sound(v) && Fillable(v, i, key) && |cells| == |v| && cells == v[i := cells[i]] && cells[i].key == key
    ensures var c := cells[i].(mark := Filled);
            && cells[i := c] == v[i := c]
            && StoreOf(v[i := c]) == Apply(StoreOf(v), |v|, Command.Set(c.key, c.Entry())).0
  {
    LiveOwned(v, key);
    FillIsSet(v, StoreOf(v), i, cells[i].(mark := Filled));
    assert cells[i := cells[i].(mark := Filled)] == v[i := cells[i].(mark := Filled)];
  }
}
