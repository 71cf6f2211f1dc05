/** The table in shared memory, as one process runs it while no other is at work. */
module HashTable {
  import opened Bytes
  import opened Stores
  import opened Cells
  import opened Records
  import Murmur3

  class Table {
    const cfg: Config
    const data: array<byte>
    /** The cell each key hashes to. */
    ghost const home: Text -> nat
    var semaphores: seq<nat>

    /** The cells the memory holds, and the map they stand for. */
    ghost var cells: seq<Cell>
    ghost var store: Store
    /** Locks taken since the table was made. */
    ghost var locksTaken: nat

    /** The memory is a row of well-formed records. */
    ghost predicate Formed()
      reads `cells, data
    {
      && cfg.Ok() && |cells| == cfg.Size()
      && Shows(cfg, data[..], cells)
      && (forall key {:trigger home(key)} :: home(key) < cfg.Size())
      && (forall key {:trigger Murmur3.CellOf(key, cfg.Size())} :: home(key) == Murmur3.CellOf(key, cfg.Size()))
    }

    ghost predicate Valid()
      reads `cells, `store, data
    {
      Formed() && Tidy(cells) && Holds(cells, store)
    }

    /** Every semaphore at its initial value. */
    ghost predicate Unlocked()
      reads `semaphores
    {
      semaphores == cfg.AllPermits()
    }

    /** Segment `g` locked once, and no other. */
    ghost predicate OnlyLocked(g: nat, exclusive: bool)
      reads `semaphores
    {
      g < cfg.segments && cfg.permits > 0 &&
      semaphores == cfg.AllPermits()[g := if exclusive then 0 else cfg.permits - 1]
    }

    /** Start-up: zeroed memory, full semaphores. */
    constructor (cfg: Config)
      requires cfg.Ok()
      ensures this.cfg == cfg && fresh(data)
      ensures Valid() && Unlocked() && store == Empty
    {
      this.cfg := cfg;
      data := new byte[At(cfg.Size())](_ => 0);
      semaphores := cfg.AllPermits();
      store := Empty;
      locksTaken := 0;
      cells := seq(cfg.Size(), _ => Blank);
      home := key => if cfg.Size() > 0 then Murmur3.CellOf(key, cfg.Size()) else 0;
      new;
      ZeroCells(cfg, data[..], cells);
      BlankIsEmpty(cells);
    }

    /** Returns once the permits were there to take. */
    method Lock(g: nat, exclusive: bool)
      requires g < |semaphores|
      requires semaphores[g] >= if exclusive then cfg.permits else 1
      modifies `semaphores, `locksTaken
      ensures semaphores == old(semaphores)[g := old(semaphores)[g] - if exclusive then cfg.permits else 1]
      ensures locksTaken == old(locksTaken) + 1
    {
      var count := if exclusive then cfg.permits else 1;
      semaphores := semaphores[g := semaphores[g] - count];
      locksTaken := locksTaken + 1;
    }

    method Unlock(g: nat, exclusive: bool)
      requires g < |semaphores|
      modifies `semaphores
      ensures semaphores == old(semaphores)[g := old(semaphores)[g] + if exclusive then cfg.permits else 1]
    {
      var count := if exclusive then cfg.permits else 1;
      semaphores := semaphores[g := semaphores[g] + count];
    }

    /** `strcmp(key, p) == 0` for the string in a key field. */
    method KeyMatches(p: nat, key: Text) returns (same: bool)
      requires p + KEY_SIZE <= data.Length && 0 in data[p..p + KEY_SIZE] && IsText(key)
      ensures same <==> CStr(data[p..p + KEY_SIZE]) == key
    {
      ghost var field := data[p..p + KEY_SIZE];
      ghost var stop :| 0 <= stop < KEY_SIZE && field[stop] == 0;
      var k := 0;
      while k < |key| && data[p + k] == key[k]
        invariant k <= |key| && k <= stop
        invariant field[..k] == key[..k]
        decreases |key| - k
      {
        assert field[k] == key[k] && key[k] in key;
        k := k + 1;
      }
      same := k == |key| && data[p + k] == 0;
      if same {
        CStrIs(field, key);
      } else {
        MatchesNot(field, key, k);
      }
    }

    lemma MatchesNot(field: seq<byte>, key: Text, k: nat)
      requires k <= |key| && k < |field|
      requires if k == |key| then field[k] != 0 else field[k] != key[k]
      requires IsText(key)
      ensures CStr(field) != key
    {
      var s := CStr(field);
      assert |s| < |field| ==> field[|s|] == 0;
    }

    method CellHit(i: nat, goal: Goal) returns (found: bool)
      requires Formed() && i < cfg.Size()
      requires goal.Holder? ==> IsText(goal.key)
      ensures found <==> Hit(cells[i], goal)
    {
      var p := At(i);
      CellBytes(cfg, data[..], cells, i);
      match goal
      case Holder(key) =>
        found := data[p + KEY_SIZE] == 1;
        if found {
          found := KeyMatches(p, key);
        }
      case Vacant =>
        found := data[p + KEY_SIZE] == 0;
    }

    /** Moves the lock from segment `g` to the one of cell `i`, if that is another. */
    method Follow(g: nat, i: nat, exclusive: bool) returns (next: nat)
      requires cfg.Ok() && OnlyLocked(g, exclusive) && i < cfg.Size()
      modifies `semaphores, `locksTaken
      ensures next == cfg.SegmentOf(i) && OnlyLocked(next, exclusive)
      ensures locksTaken == old(locksTaken) + if next == g then 0 else 1
    {
      next := cfg.SegmentOf(i);
      if next != g {
        Unlock(g, exclusive);
        Lock(next, exclusive);
      }
    }

    /** One loop of the scan, from cell `from` up to `to`, which it visits as the `k`-th and
        following ones. The reader holds segment `g` when it starts and `last` when it ends. */
    method Walk(g: nat, from: nat, to: nat, goal: Goal, ghost h: nat, ghost k: nat)
      returns (cell: int, last: nat)
      requires Formed() && OnlyLocked(g, false) && from <= to <= cfg.Size()
      requires goal.Holder? ==> IsText(goal.key)
      requires h < cfg.Size() && k + to - from <= cfg.Size()
      requires forall j :: k <= j < k + to - from ==> Probe(h, j, cfg.Size()) == from + j - k
      modifies `semaphores, `locksTaken
      ensures OnlyLocked(last, false)
      ensures cell >= 0 ==> cell == Find(cells, h, k, goal)
      ensures cell < 0 ==> cell == -1 && Find(cells, h, k, goal) == Find(cells, h, k + to - from, goal)
      ensures cell < 0 ==> last == if from < to then cfg.SegmentOf(to - 1) else g
      ensures from == to ==> locksTaken == old(locksTaken)
      ensures from < to ==> locksTaken <= old(locksTaken) + cfg.SegmentOf(to - 1) - cfg.SegmentOf(from)
                                          + if g == cfg.SegmentOf(from) then 0 else 1
    {
      last := g;
      var i := from;
      while i < to
        invariant from <= i <= to
        invariant OnlyLocked(last, false)
        invariant Find(cells, h, k, goal) == Find(cells, h, k + i - from, goal)
        invariant last == if i > from then cfg.SegmentOf(i - 1) else g
        invariant i == from ==> locksTaken == old(locksTaken)
        invariant i > from ==> locksTaken == old(locksTaken) + last - cfg.SegmentOf(from)
                                             + if g == cfg.SegmentOf(from) then 0 else 1
      {
        if i > from { cfg.SegmentStep(i - 1); }
        cfg.SegmentMonotone(i, to - 1);
        assert Probe(h, k + i - from, cfg.Size()) == i;
        last := Follow(last, i, false);
        var found := CellHit(i, goal);
        if found {
          return i, last;
        }
        i := i + 1;
      }
      cell := -1;
    }

    /** The wrapping scan: from the key's own cell to the end, then from the start. One segment is
        locked at a time, and at most one more than there are. */
    method Scan(h: nat, goal: Goal) returns (cell: int)
      requires Formed() && Unlocked() && h < cfg.Size()
      requires goal.Holder? ==> IsText(goal.key)
      modifies `semaphores, `locksTaken
      ensures Unlocked()
      ensures cell == Find(cells, h, 0, goal)
      ensures locksTaken <= old(locksTaken) + cfg.segments + 1
    {
      var n := cfg.Size();
      var g := cfg.SegmentOf(h);
      Lock(g, false);
      cell, g := Walk(g, h, n, goal, h, 0);
      if cell < 0 {
        cell, g := Walk(g, 0, h, goal, h, n - h);
        if h > 0 {
          cfg.SegmentMonotone(h - 1, h);
        }
      }
      Unlock(g, false);
    }

    method FindFilled(key: Text) returns (cell: int)
      requires Formed() && Unlocked() && IsText(key)
      modifies `semaphores, `locksTaken
      ensures Unlocked()
      ensures cell == Find(cells, home(key), 0, Holder(key))
    {
      var h := Murmur3.Hash(key, cfg.Size());
      cell := Scan(h, Holder(key));
    }

    method FindFree(key: Text) returns (cell: int)
      requires Formed() && Unlocked() && IsText(key)
      modifies `semaphores, `locksTaken
      ensures Unlocked()
      ensures cell == Find(cells, home(key), 0, Vacant)
    {
      var h := Murmur3.Hash(key, cfg.Size());
      cell := Scan(h, Vacant);
    }

    method CopyIn(p: nat, s: seq<byte>)
      requires p + |s| <= data.Length
      modifies data
      ensures data[..] == Splice(old(data[..]), p, s)
    {
      forall q | 0 <= q < |s| {
        data[p + q] := s[q];
      }
    }

    /** `strcpy` out of the memory, from a place where a string ends before `end`. */
    method ReadString(p: nat, ghost end: nat) returns (s: Text)
      requires p <= end <= data.Length && 0 in data[p..end]
      ensures s == CStr(data[p..end])
    {
      ghost var field := data[p..end];
      ghost var stop :| 0 <= stop < |field| && field[stop] == 0;
      s := [];
      while data[p + |s|] != 0
        invariant |s| <= stop
        invariant IsText(s) && s == field[..|s|]
        decreases stop - |s|
      {
        assert field[|s|] == data[p + |s|];
        s := s + [data[p + |s|]];
      }
      CStrIs(field, s);
    }

    /** The copy out of a found cell. */
    method CopyOut(cell: nat) returns (value: Text)
      requires Formed() && cell < cfg.Size()
      ensures value == cells[cell].value && FitsValue(cfg, value)
    {
      CellValue(cfg, data[..], cells, cell);
      value := ReadString(At(cell) + ValueAt(cfg), At(cell) + RECORD_SIZE);
    }

    /** The locked read of a found cell. */
    method ReadCell(cell: nat) returns (value: Text)
      requires Formed() && Unlocked() && cell < cfg.Size()
      modifies `semaphores, `locksTaken
      ensures Unlocked() && value == cells[cell].value && FitsValue(cfg, value)
    {
      var g := cfg.SegmentOf(cell);
      Lock(g, false);
      value := CopyOut(cell);
      Unlock(g, false);
    }

    method Get(key: Text) returns (status: int, value: Text)
      requires Valid() && Unlocked() && FitsKey(key)
      modifies `semaphores, `locksTaken
      ensures Unlocked()
      ensures match Apply(store, cfg.Size(), Command.Get(key)).1
              case Value(v) => status == 0 && value == v && FitsValue(cfg, value)
              case _ => status == -1
      ensures status == (if key in store.live then 0 else -1)
      ensures status == 0 ==> value == store.live[key].value
    {
      FindIsLookup(cells, store, home(key), key);
      var cell := FindFilled(key);
      if cell >= 0 {
        value := ReadCell(cell);
        status := 0;
      } else {
        status, value := -1, [];
      }
    }

    /** The cell a `Set` of this key writes to, or -1. */
    ghost function Slot(key: Text): int
      requires home(key) < |cells|
      reads `cells
    {
      var i := Find(cells, home(key), 0, Holder(key));
      if i >= 0 then i else Find(cells, home(key), 0, Vacant)
    }

    /** What a `Set` stores beside the value: nothing in version 1, else when the entry dies. */
    function Deadline(ttl: int, now: int): int {
      if cfg.deadlines then ToInt32(ttl + now) else 0
    }

    /** The copies of a `Set` into its cell, in the order in which they are made. */
    method WriteRecord(cell: nat, key: Text, ttl: int, now: int, value: Text)
      requires Formed() && cell < cfg.Size()
      requires FitsKey(key) && FitsValue(cfg, value)
      modifies data, `cells
      ensures Formed()
      ensures cells == old(cells)[cell := Cell(Filled, key, Deadline(ttl, now), value)]
      ensures OnlyRecord(old(data[..]), data[..], cell)
    {
      ghost var d0 := data[..];
      CopyIn(At(cell), key + [0]);
      ghost var d1 := data[..];
      var deathTime := ToInt32(ttl + now);
      if cfg.deadlines {
        CopyIn(At(cell) + KEY_SIZE + 1, IntBytes(deathTime));
      }
      ghost var d2 := data[..];
      CopyIn(At(cell) + ValueAt(cfg), value + [0]);
      ghost var d3 := data[..];
      CopyIn(At(cell) + KEY_SIZE, [MarkByte(Filled)]);
      RecordCopied(cfg, d0, d1, d2, d3, data[..], cell, key, deathTime, value);
      RecordWritten(cfg, d0, data[..], cells, cell, key, deathTime, value);
      cells := cells[cell := Cell(Filled, key, Deadline(ttl, now), value)];
    }

    /** The locked write of the cell that a `Set` has chosen. */
    method Fill(cell: nat, key: Text, value: Text, ttl: int, now: int)
      requires Valid() && Unlocked() && FitsKey(key) && FitsValue(cfg, value)
      requires cell < cfg.Size()
      requires Hit(cells[cell], Holder(key)) || (key !in store.live && cells[cell].mark == Free)
      modifies data, `semaphores, `locksTaken, `cells, `store
      ensures Valid() && Unlocked()
      ensures (store, Done) == Apply(old(store), cfg.Size(), Command.Set(key, Entry(value, Deadline(ttl, now))))
      ensures cells == old(cells)[cell := Cell(Filled, key, Deadline(ttl, now), value)]
      ensures OnlyRecord(old(data[..]), data[..], cell)
    {
      FillIsSet(cells, store, cell, Cell(Filled, key, Deadline(ttl, now), value));
      var g := cfg.SegmentOf(cell);
      Lock(g, true);
      WriteRecord(cell, key, ttl, now, value);
      Unlock(g, true);
      store := Apply(store, cfg.Size(), Command.Set(key, Entry(value, Deadline(ttl, now)))).0;
    }

    method Set(key: Text, value: Text, ttl: int, now: int) returns (status: int)
      requires Valid() && Unlocked() && FitsKey(key) && FitsValue(cfg, value)
      modifies data, `semaphores, `locksTaken, `cells, `store
      ensures Valid() && Unlocked()
      ensures var (after, reply) := Apply(old(store), cfg.Size(), Command.Set(key, Entry(value, Deadline(ttl, now))));
              store == after && status == (if reply.Done? then 0 else -1)
      ensures status == (if key in old(store).live || old(store).spent < cfg.Size() then 0 else -1)
      ensures store.live == if status == 0 then old(store).live[key := Entry(value, Deadline(ttl, now))]
                            else old(store).live
      ensures old(Slot(key)) >= 0 ==>
                cells == old(cells)[old(Slot(key)) := Cell(Filled, key, Deadline(ttl, now), value)]
      ensures OnlyRecord(old(data[..]), data[..], old(Slot(key)))
    {
      FindIsLookup(cells, store, home(key), key);
      FindIsRoom(cells, store, home(key));
      var cell := FindFilled(key);
      if cell == -1 {
        cell := FindFree(key);
      }
      if cell >= 0 {
        Fill(cell, key, value, ttl, now);
        status := 0;
      } else {
        status := -1;
      }
    }

    /** `p_data[...] = CL_RIP`, inside a segment that is already locked. */
    method Bury(cell: nat)
      requires Formed() && cell < cfg.Size()
      modifies data, `cells
      ensures Formed() && cells == old(cells)[cell := old(cells)[cell].(mark := Rip)]
      ensures OnlyRecord(old(data[..]), data[..], cell)
    {
      ghost var before := data[..];
      CopyIn(At(cell) + KEY_SIZE, [MarkByte(Rip)]);
      RecordBuried(cfg, before, data[..], cells, cell);
      cells := cells[cell := cells[cell].(mark := Rip)];
    }

    method Del(key: Text) returns (status: int)
      requires Valid() && Unlocked() && FitsKey(key)
      modifies data, `semaphores, `locksTaken, `cells, `store
      ensures Valid() && Unlocked()
      ensures var (after, reply) := Apply(old(store), cfg.Size(), Command.Del(key));
              store == after && status == (if reply.Done? then 0 else -1)
      ensures status == (if key in old(store).live then 0 else -1)
      ensures store.live == old(store).live - {key} && store.spent == old(store).spent
      ensures OnlyRecord(old(data[..]), data[..], old(Find(cells, home(key), 0, Holder(key))))
    {
      FindIsLookup(cells, store, home(key), key);
      var cell := FindFilled(key);
      if cell >= 0 {
        var g := cfg.SegmentOf(cell);
        Lock(g, true);
        Remove(cell);
        Unlock(g, true);
        status := 0;
      } else {
        status := -1;
      }
    }

    /** Buries a live cell and, with it, its key. */
    method Remove(cell: nat)
      requires Valid() && cell < cfg.Size() && cells[cell].mark == Filled
      modifies data, `cells, `store
      ensures Valid()
      ensures old(cells)[cell].key in old(store).live
      ensures store == old(store).(live := old(store).live - {old(cells)[cell].key})
      ensures cells == old(cells)[cell := old(cells)[cell].(mark := Rip)]
      ensures OnlyRecord(old(data[..]), data[..], cell)
    {
      BuryIsRemove(cells, store, cell);
      ghost var key := cells[cell].key;
      Bury(cell);
      store := store.(live := store.live - {key});
    }

    method ReadDeadline(cell: nat) returns (deadline: int)
      requires Formed() && cfg.deadlines && cell < cfg.Size()
      ensures deadline == cells[cell].deadline
    {
      var p := At(cell) + KEY_SIZE + 1;
      CellDeadline(cfg, data[..], cells, cell);
      deadline := IntFrom(data[p..p + 4]);
    }

    /** The visit to one record, inside its locked segment. */
    method CollectAt(i: nat, now: int) returns (buried: bool)
      requires Valid() && cfg.deadlines && i < cfg.Size()
      modifies data, `cells, `store
      ensures Valid() && store.spent == old(store).spent
      ensures buried <==> Expired(old(cells)[i], now)
      ensures cells == old(cells)[i := SweptCell(old(cells)[i], now)]
      ensures |store.live| == |old(store).live| - if buried then 1 else 0
    {
      buried := false;
      var currentTime := ToInt32(now);
      var expirationTime := ReadDeadline(i);
      if expirationTime != 0 && currentTime > expirationTime {
        CellBytes(cfg, data[..], cells, i);
        if data[At(i) + KEY_SIZE] != MarkByte(Rip) {
          Remove(i);
          buried := true;
        }
      }
    }

    /** The loop over the records, one segment locked at a time. */
    method Collect(first: nat, clock: seq<int>) returns (collected: nat, g: nat)
      requires Valid() && OnlyLocked(first, true) && cfg.deadlines && |clock| == cfg.Size()
      modifies data, `semaphores, `locksTaken, `cells, `store
      ensures Valid() && OnlyLocked(g, true)
      ensures cells == Swept(old(cells), clock)
      ensures collected == |old(store).live| - |store.live|
    {
      ghost var before := cells;
      collected := 0;
      g := first;
      var i := 0;
      while i < cfg.Size()
        invariant 0 <= i <= cfg.Size()
        invariant Valid() && OnlyLocked(g, true)
        invariant |cells| == |before|
        invariant forall j :: 0 <= j < i ==> cells[j] == SweptCell(before[j], clock[j])
        invariant forall j :: i <= j < |cells| ==> cells[j] == before[j]
        invariant collected + |store.live| == |old(store).live|
      {
        g := Follow(g, i, true);
        var buried := CollectAt(i, clock[i]);
        if buried {
          collected := collected + 1;
        }
        i := i + 1;
      }
    }

    /** Walks over the whole table and buries every record whose deadline lies before the clock reading made
        at that record: the store's sweep of the keys found dead. */
    method CollectGarbage(clock: seq<int>) returns (collected: nat)
      requires Valid() && Unlocked() && cfg.deadlines && |clock| == cfg.Size()
      modifies data, `semaphores, `locksTaken, `cells, `store
      ensures Valid() && Unlocked()
      ensures cells == Swept(old(cells), clock)
      ensures store == Apply(old(store), cfg.Size(), Sweep(Dead(old(cells), clock))).0
      ensures collected == |old(store).live| - |store.live|
    {
      ghost var before, held := cells, store;
      Lock(0, true);
      var g;
      collected, g := Collect(0, clock);
      SweptStore(before, held, clock, cells, store);
      Unlock(g, true);
    }
  }
}
