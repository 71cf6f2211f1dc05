/** The table as a row of cells: the wrapping scan that searches it, and the map it stands for. */
module Cells {
  import opened Bytes
  import opened Stores

  /** Sizes and options that tell the two versions of the table apart. Segments carry counting
      semaphores that start at `permits`; a reader takes one permit and a writer all of them. */
  datatype Config = Config(segments: nat, segmentSize: nat, permits: nat, deadlines: bool) {
    predicate Ok() {
      segments > 0 && segmentSize > 0 && permits > 0
    }

    function Size(): nat {
      Product(segments, segmentSize)
    }

    /** The semaphores when nobody holds any. */
    function AllPermits(): seq<nat> {
      Repeat(segments, permits)
    }

    /** The segment whose semaphore guards cell `i`. */
    function SegmentOf(i: nat): (g: nat)
      requires Ok() && i < Size()
      ensures g < segments
    {
      QuotientBound(i, segmentSize, segments);
      Quotient(i, segmentSize)
    }

    /** Walking one cell on stays in the segment or enters the next one. */
    lemma SegmentStep(i: nat)
      requires Ok() && i + 1 < Size()
      ensures SegmentOf(i) <= SegmentOf(i + 1) <= SegmentOf(i) + 1
    {
      QuotientStep(i, segmentSize);
    }

    lemma SegmentMonotone(i: nat, j: nat)
      requires Ok() && i <= j < Size()
      ensures SegmentOf(i) <= SegmentOf(j)
      decreases j - i
    {
      if i < j {
        SegmentStep(i);
        SegmentMonotone(i + 1, j);
      }
    }
  }

  /** `n * s` and `i / s`, counted out so that no proof has to reason about either. */
  function Product(n: nat, s: nat): nat {
    if n == 0 then 0 else s + Product(n - 1, s)
  }

  function Quotient(i: nat, s: nat): nat
    requires s > 0
  {
    if i < s then 0 else 1 + Quotient(i - s, s)
  }

  function Repeat(n: nat, x: nat): (s: seq<nat>)
    ensures |s| == n && forall i :: 0 <= i < n ==> s[i] == x
  {
    if n == 0 then [] else Repeat(n - 1, x) + [x]
  }

  lemma {:induction false} ProductIsTimes(n: nat, s: nat)
    ensures Product(n, s) == n * s
  {
    if n > 0 {
      ProductIsTimes(n - 1, s);
      assert n * s == (n - 1) * s + s;
    }
  }

  lemma QuotientIsDivision(i: nat, s: nat)
    requires s > 0
    ensures Quotient(i, s) == i / s
  {
    var r := QuotientRest(i, s);
    var q, p := Quotient(i, s), i / s;
    assert i == p * s + i % s;
    if q < p {
      Scale(q + 1, p, s);
    } else if p < q {
      Scale(p + 1, q, s);
    }
  }

  lemma {:induction false} QuotientRest(i: nat, s: nat) returns (r: nat)
    requires s > 0
    ensures i == Quotient(i, s) * s + r && r < s
  {
    if i < s {
      r := i;
    } else {
      r := QuotientRest(i - s, s);
    }
  }

  lemma Scale(a: nat, b: nat, s: nat)
    requires a <= b
    ensures a * s <= b * s
  {
  }

  lemma {:induction false} QuotientBound(i: nat, s: nat, n: nat)
    requires s > 0 && i < Product(n, s)
    ensures Quotient(i, s) < n
  {
    if i >= s {
      QuotientBound(i - s, s, n - 1);
    }
  }

  lemma {:induction false} QuotientStep(i: nat, s: nat)
    requires s > 0
    ensures Quotient(i, s) <= Quotient(i + 1, s) <= Quotient(i, s) + 1
  {
    if i >= s {
      QuotientStep(i - s, s);
    }
  }

  /** Version 2: binary segment locks, every record has a deadline. */
  const P6 := Config(8, 128, 1, true)

  /** CL_FREE, CL_FILLED and CL_RIP. */
  datatype Mark = Free | Filled | Rip

  datatype Cell = Cell(mark: Mark, key: Text, deadline: int, value: Text) {
    function Entry(): Entry {
      Stores.Entry(value, deadline)
    }
  }

  /** A cell of the zeroed table. */
  const Blank := Cell(Free, [], 0, [])

  /** No cell is free that anything was ever written to. */
  ghost predicate Tidy(cells: seq<Cell>) {
    forall i :: 0 <= i < |cells| && cells[i].mark == Free ==> cells[i] == Blank
  }

  // Scanning.

  /** What a scan looks for: the cell that holds a key, or a cell never used. */
  datatype Goal = Holder(key: Text) | Vacant

  predicate Hit(cell: Cell, goal: Goal) {
    match goal
    case Holder(key) => cell.mark == Filled && cell.key == key
    case Vacant => cell.mark == Free
  }

  /** The cell visited after `k` others by a scan that starts at `h`. */
  function Probe(h: nat, k: nat, n: nat): (i: nat)
    requires h < n && k < n
    ensures i < n
  {
    if h + k < n then h + k else h + k - n
  }

  /** The first hit at or after the `k`-th visited cell, or -1. */
  function Find(cells: seq<Cell>, h: nat, k: nat, goal: Goal): (r: int)
    requires h < |cells| && k <= |cells|
    ensures -1 <= r < |cells|
    ensures r >= 0 ==> Hit(cells[r], goal)
    decreases |cells| - k
  {
    if k == |cells| then -1
    else
      var i := Probe(h, k, |cells|);
      if Hit(cells[i], goal) then i else Find(cells, h, k + 1, goal)
  }

  /** A scan misses exactly when no cell of the whole table is a hit, tombstones or not. */
  lemma FindComplete(cells: seq<Cell>, h: nat, goal: Goal)
    requires h < |cells|
    ensures Find(cells, h, 0, goal) == -1 <==> forall i :: 0 <= i < |cells| ==> !Hit(cells[i], goal)
  {
    FindMisses(cells, h, 0, goal);
    if Find(cells, h, 0, goal) == -1 {
      forall i | 0 <= i < |cells| ensures !Hit(cells[i], goal) {
        var k := if i >= h then i - h else i + |cells| - h;
        assert Probe(h, k, |cells|) == i;
      }
    }
  }

  lemma {:induction false} FindMisses(cells: seq<Cell>, h: nat, k: nat, goal: Goal)
    requires h < |cells| && k <= |cells|
    ensures Find(cells, h, k, goal) == -1 ==>
              forall j :: k <= j < |cells| ==> !Hit(cells[Probe(h, j, |cells|)], goal)
    decreases |cells| - k
  {
    if k < |cells| {
      FindMisses(cells, h, k + 1, goal);
    }
  }

  // The map a row of cells stands for.

  ghost predicate Unique(cells: seq<Cell>) {
    forall i, j :: 0 <= i < j < |cells| && cells[i].mark == Filled && cells[j].mark == Filled ==>
      cells[i].key != cells[j].key
  }

  /** The entries of the filled cells; where a key stood twice, the later cell would win. */
  function Live(cells: seq<Cell>): map<Text, Entry> {
    if cells == [] then map[]
    else
      var n := |cells| - 1;
      if cells[n].mark == Filled then Live(cells[..n])[cells[n].key := cells[n].Entry()] else Live(cells[..n])
  }

  function FreeCells(cells: seq<Cell>): (count: nat)
    ensures count <= |cells|
  {
    if cells == [] then 0
    else FreeCells(cells[..|cells| - 1]) + if cells[|cells| - 1].mark == Free then 1 else 0
  }

  /** The cells hold the store: no key twice, the live entries, and one cell spent per fresh insert. */
  ghost predicate Holds(cells: seq<Cell>, s: Store) {
    Unique(cells) && s.live == Live(cells) && s.spent + FreeCells(cells) == |cells|
  }

  ghost predicate Owned(cells: seq<Cell>, key: Text) {
    exists i :: 0 <= i < |cells| && Hit(cells[i], Holder(key))
  }

  lemma {:induction false} LiveAt(cells: seq<Cell>, i: nat)
    requires Unique(cells) && i < |cells| && cells[i].mark == Filled
    ensures cells[i].key in Live(cells) && Live(cells)[cells[i].key] == cells[i].Entry()
  {
    if i < |cells| - 1 {
      LiveAt(cells[..|cells| - 1], i);
    }
  }

  lemma {:induction false} LiveOwned(cells: seq<Cell>, key: Text)
    ensures key in Live(cells) <==> Owned(cells, key)
  {
    if cells != [] {
      var n := |cells| - 1;
      LiveOwned(cells[..n], key);
      if Owned(cells[..n], key) {
        var i :| 0 <= i < n && Hit(cells[..n][i], Holder(key));
        assert Hit(cells[i], Holder(key));
      }
      assert Hit(cells[n], Holder(key)) ==> Owned(cells, key);
    }
  }

  /** The live map is pinned down by its entries: one for each filled cell, and no others. */
  lemma LiveIs(cells: seq<Cell>, m: map<Text, Entry>)
    requires Unique(cells)
    requires forall i :: 0 <= i < |cells| && cells[i].mark == Filled ==>
      cells[i].key in m && m[cells[i].key] == cells[i].Entry()
    requires forall key :: key in m ==> Owned(cells, key)
    ensures Live(cells) == m
  {
    LiveKeys(cells, m);
    forall key | key in m ensures Live(cells)[key] == m[key] {
      var i := Owner(cells, key);
      assert cells[i].key == key && m[key] == cells[i].Entry();
    }
  }

  lemma Owner(cells: seq<Cell>, key: Text) returns (i: nat)
    requires Unique(cells) && Owned(cells, key)
    ensures i < |cells| && cells[i].mark == Filled && cells[i].key == key
    ensures key in Live(cells) && Live(cells)[key] == cells[i].Entry()
  {
    i :| i < |cells| && Hit(cells[i], Holder(key));
    LiveAt(cells, i);
  }

  lemma LiveKeys(cells: seq<Cell>, m: map<Text, Entry>)
    requires forall i :: 0 <= i < |cells| && cells[i].mark == Filled ==> cells[i].key in m
    requires forall key :: key in m ==> Owned(cells, key)
    ensures Live(cells).Keys == m.Keys
  {
    forall key ensures key in Live(cells) <==> key in m {
      LiveOwned(cells, key);
    }
  }

  /** The scan finds a key exactly when the store has it, and finds its entry. */
  lemma FindIsLookup(cells: seq<Cell>, s: Store, h: nat, key: Text)
    requires Holds(cells, s) && h < |cells|
    ensures var r := Find(cells, h, 0, Holder(key));
            if key in s.live then r >= 0 && cells[r].Entry() == s.live[key] else r == -1
  {
    FindComplete(cells, h, Holder(key));
    LiveOwned(cells, key);
    var r := Find(cells, h, 0, Holder(key));
    if r >= 0 {
      LiveAt(cells, r);
    }
  }

  lemma {:induction false} NoFreeCell(cells: seq<Cell>)
    ensures FreeCells(cells) == 0 <==> forall i :: 0 <= i < |cells| ==> cells[i].mark != Free
  {
    if cells != [] {
      NoFreeCell(cells[..|cells| - 1]);
    }
  }

  /** A vacant cell is found exactly as long as fresh inserts remain. */
  lemma FindIsRoom(cells: seq<Cell>, s: Store, h: nat)
    requires Holds(cells, s) && h < |cells|
    ensures Find(cells, h, 0, Vacant) >= 0 <==> s.spent < |cells|
  {
    FindComplete(cells, h, Vacant);
    NoFreeCell(cells);
  }

  /** The free cells of a table that went through these commands: all but one for each fresh insert. */
  lemma FreeCellsLeft(cells: seq<Cell>, cs: seq<Command>)
    requires Holds(cells, After(Empty, |cells|, cs))
    ensures FreeCells(cells) == |cells| - FreshInserts(Empty, |cells|, cs)
  {
    SpentCounts(Empty, |cells|, cs);
  }

  lemma {:induction false} FreeCellsUpdate(cells: seq<Cell>, i: nat, c: Cell)
    requires i < |cells|
    ensures FreeCells(cells[i := c]) ==
            FreeCells(cells) - (if cells[i].mark == Free then 1 else 0) + (if c.mark == Free then 1 else 0)
  {
    var n := |cells| - 1;
    if i < n {
      assert cells[i := c][..n] == cells[..n][i := c];
      FreeCellsUpdate(cells[..n], i, c);
    } else {
      assert cells[i := c][..n] == cells[..n];
    }
  }

  /** Filling the cell of a present key, or a vacant cell with an absent one, is the store's `Set`. */
  lemma FillIsSet(cells: seq<Cell>, s: Store, i: nat, c: Cell)
    requires Holds(cells, s) && i < |cells| && c.mark == Filled
    requires Hit(cells[i], Holder(c.key)) || (c.key !in s.live && cells[i].mark == Free)
    ensures Apply(s, |cells|, Command.Set(c.key, c.Entry())).1 == Done
    ensures Holds(cells[i := c], Apply(s, |cells|, Command.Set(c.key, c.Entry())).0)
  {
    FreeCellsUpdate(cells, i, c);
    NoFreeCell(cells);
    FillLive(cells, i, c);
    LiveOwned(cells, c.key);
  }

  lemma FillLive(cells: seq<Cell>, i: nat, c: Cell)
    requires Unique(cells) && i < |cells| && c.mark == Filled
    requires Hit(cells[i], Holder(c.key)) || (c.key !in Live(cells) && cells[i].mark == Free)
    ensures Unique(cells[i := c]) && Live(cells[i := c]) == Live(cells)[c.key := c.Entry()]
  {
    var after, m := cells[i := c], Live(cells)[c.key := c.Entry()];
    LiveOwned(cells, c.key);
    forall j | 0 <= j < |cells| && j != i && cells[j].mark == Filled
      ensures cells[j].key != c.key && cells[j].key in m && m[cells[j].key] == cells[j].Entry()
    {
      LiveAt(cells, j);
      assert Hit(cells[j], Holder(cells[j].key));
    }
    forall key | key in m ensures Owned(after, key) {
      LiveOwned(cells, key);
      if key == c.key {
        assert Hit(after[i], Holder(key));
      } else {
        var j :| 0 <= j < |cells| && Hit(cells[j], Holder(key));
        assert Hit(after[j], Holder(key));
      }
    }
    LiveIs(after, m);
  }

  /** Burying a live cell removes its key and nothing else, and frees no cell. */
  lemma BuryIsRemove(cells: seq<Cell>, s: Store, i: nat)
    requires Holds(cells, s) && i < |cells| && cells[i].mark == Filled
    ensures Holds(cells[i := cells[i].(mark := Rip)], s.(live := s.live - {cells[i].key}))
    ensures cells[i].key in s.live
  {
    FreeCellsUpdate(cells, i, cells[i].(mark := Rip));
    LiveAt(cells, i);
    BuryLive(cells, i);
  }

  lemma BuryLive(cells: seq<Cell>, i: nat)
    requires Unique(cells) && i < |cells| && cells[i].mark == Filled
    ensures Unique(cells[i := cells[i].(mark := Rip)])
    ensures Live(cells[i := cells[i].(mark := Rip)]) == Live(cells) - {cells[i].key}
  {
    var key, after := cells[i].key, cells[i := cells[i].(mark := Rip)];
    var m := Live(cells) - {key};
    forall j | 0 <= j < |after| && after[j].mark == Filled
      ensures after[j].key in m && m[after[j].key] == after[j].Entry()
    {
      LiveAt(cells, j);
    }
    forall k | k in m ensures Owned(after, k) {
      LiveOwned(cells, k);
      var j :| 0 <= j < |cells| && Hit(cells[j], Holder(k));
      assert Hit(after[j], Holder(k));
    }
    LiveIs(after, m);
  }

  /** The zeroed table is the empty store. */
  lemma {:induction false} BlankIsEmpty(cells: seq<Cell>)
    requires forall i :: 0 <= i < |cells| ==> cells[i] == Blank
    ensures Holds(cells, Empty) && Tidy(cells)
  {
    AllFree(cells);
    LiveIs(cells, map[]);
  }

  lemma {:induction false} AllFree(cells: seq<Cell>)
    requires forall i :: 0 <= i < |cells| ==> cells[i].mark == Free
    ensures FreeCells(cells) == |cells|
  {
    if cells != [] {
      AllFree(cells[..|cells| - 1]);
    }
  }

  // Garbage collection.

  /** The test made at a record, with the clock reading made there. */
  predicate Expired(c: Cell, now: int) {
    c.mark == Filled && c.deadline != 0 && ToInt32(now) > c.deadline
  }

  function SweptCell(c: Cell, now: int): Cell {
    if Expired(c, now) then c.(mark := Rip) else c
  }

  /** Every expired cell buried, each judged by its own clock reading. */
  function Swept(cells: seq<Cell>, clock: seq<int>): (swept: seq<Cell>)
    requires |clock| == |cells|
    ensures |swept| == |cells|
  {
    seq(|cells|, i requires 0 <= i < |cells| => SweptCell(cells[i], clock[i]))
  }

  /** The keys of the cells that a sweep finds expired. */
  function Dead(cells: seq<Cell>, clock: seq<int>): set<Text>
    requires |clock| == |cells|
  {
    set i | 0 <= i < |cells| && Expired(cells[i], clock[i]) :: cells[i].key
  }

  ghost predicate Forward(clock: seq<int>) {
    forall i, j :: 0 <= i <= j < |clock| ==> ToInt32(clock[i]) <= ToInt32(clock[j])
  }

  lemma SweptUnique(cells: seq<Cell>, clock: seq<int>)
    requires Unique(cells) && |clock| == |cells|
    ensures Unique(Swept(cells, clock))
  {
  }

  lemma {:induction false} SweptFree(cells: seq<Cell>, swept: seq<Cell>)
    requires |swept| == |cells| && forall i :: 0 <= i < |cells| ==> (swept[i].mark == Free <==> cells[i].mark == Free)
    ensures FreeCells(swept) == FreeCells(cells)
  {
    if cells != [] {
      SweptFree(cells[..|cells| - 1], swept[..|cells| - 1]);
    }
  }

  /** A sweep of the cells is the store's `Sweep` of the keys found dead, and frees no cell. */
  lemma SweptIsSweep(cells: seq<Cell>, s: Store, clock: seq<int>)
    requires Holds(cells, s) && |clock| == |cells|
    ensures Holds(Swept(cells, clock), Apply(s, |cells|, Sweep(Dead(cells, clock))).0)
  {
    var swept, dead := Swept(cells, clock), Dead(cells, clock);
    SweptUnique(cells, clock);
    SweptFree(cells, swept);
    forall i | 0 <= i < |swept| && swept[i].mark == Filled
      ensures swept[i].key in s.live - dead && (s.live - dead)[swept[i].key] == swept[i].Entry()
    {
      LiveAt(cells, i);
    }
    forall key | key in s.live - dead ensures Owned(swept, key) {
      LiveOwned(cells, key);
      var i :| 0 <= i < |cells| && Hit(cells[i], Holder(key));
      assert Hit(swept[i], Holder(key));
    }
    LiveIs(swept, s.live - dead);
  }

  /** A key's cell, and when the reading made there finds the key dead. */
  lemma DeadExactly(cells: seq<Cell>, s: Store, clock: seq<int>, key: Text) returns (i: nat)
    requires Holds(cells, s) && |clock| == |cells| && key in s.live
    ensures i < |cells|
    ensures key in Dead(cells, clock) <==> s.live[key].deadline != 0 && ToInt32(clock[i]) > s.live[key].deadline
  {
    LiveOwned(cells, key);
    i := Owner(cells, key);
    forall j | 0 <= j < |cells| && Expired(cells[j], clock[j]) && cells[j].key == key ensures j == i {
      LiveAt(cells, j);
    }
  }

  lemma SweptStore(cells: seq<Cell>, s: Store, clock: seq<int>, swept: seq<Cell>, s': Store)
    requires Holds(cells, s) && |clock| == |cells| && swept == Swept(cells, clock) && Holds(swept, s')
    ensures s' == Apply(s, |cells|, Sweep(Dead(cells, clock))).0
  {
    SweptIsSweep(cells, s, clock);
  }

  /** A sweep makes no entry up, and keeps none that was dead at the first clock reading. */
  lemma SweepBuries(cells: seq<Cell>, clock: seq<int>, key: Text)
    requires Unique(cells) && |clock| == |cells| > 0 && Forward(clock)
    requires key in Live(Swept(cells, clock))
    ensures key in Live(cells) && Live(Swept(cells, clock))[key] == Live(cells)[key]
    ensures Live(cells)[key].deadline == 0 || Live(cells)[key].deadline >= ToInt32(clock[0])
  {
    var swept := Swept(cells, clock);
    SweptUnique(cells, clock);
    LiveOwned(swept, key);
    var i :| 0 <= i < |swept| && Hit(swept[i], Holder(key));
    LiveAt(cells, i);
    LiveAt(swept, i);
    assert ToInt32(clock[0]) <= ToInt32(clock[i]);
  }

  /** In a table whose entries all have deadlines, a sweep leaves no entry that was dead at the first clock reading. */
  lemma SweepClears(cells: seq<Cell>, clock: seq<int>, cs: seq<Command>, key: Text)
    requires Holds(cells, After(Empty, |cells|, cs)) && AllDated(cs)
    requires |clock| == |cells| > 0 && Forward(clock)
    requires key in Live(Swept(cells, clock))
    ensures key in Live(cells) && Live(cells)[key].deadline >= ToInt32(clock[0])
  {
    SweepBuries(cells, clock, key);
    LiveDated(|cells|, cs, key);
  }

  /** A sweep keeps every entry that has no deadline or is not yet dead at the last clock reading. */
  lemma SweepKeeps(cells: seq<Cell>, clock: seq<int>, key: Text)
    requires Unique(cells) && |clock| == |cells| > 0 && Forward(clock)
    requires key in Live(cells)
    requires Live(cells)[key].deadline == 0 || Live(cells)[key].deadline >= ToInt32(clock[|clock| - 1])
    ensures key in Live(Swept(cells, clock))
  {
    SweptUnique(cells, clock);
    LiveOwned(cells, key);
    var i :| 0 <= i < |cells| && Hit(cells[i], Holder(key));
    LiveAt(cells, i);
    assert ToInt32(clock[i]) <= ToInt32(clock[|clock| - 1]);
    LiveAt(Swept(cells, clock), i);
  }
}
