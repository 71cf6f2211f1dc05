/** Records: how a cell is laid out in 1024 bytes of the shared memory. */
module Records {
  import opened Bytes
  import opened Stores
  import opened Cells

  const KEY_SIZE: nat := 63
  const RECORD_SIZE: nat := 1024

  /** Where the value starts: after key and mark, and after the deadline if there is one. */
  function ValueAt(cfg: Config): (p: nat)
    ensures KEY_SIZE + 1 <= p <= KEY_SIZE + 5
  {
    if cfg.deadlines then KEY_SIZE + 5 else KEY_SIZE + 1
  }

  /** Keys that fit beside their NUL. */
  predicate FitsKey(key: Text) {
    IsText(key) && |key| < KEY_SIZE
  }

  /** Values that fit beside their NUL. */
  predicate FitsValue(cfg: Config, value: Text) {
    IsText(value) && ValueAt(cfg) + |value| < RECORD_SIZE
  }

  // A C `int` as its four bytes in little-endian order.

  /** A byte as a number, and back: both counted, since conversions of bit vectors are costly to reason about. */
  function ByteValue(b: byte): nat
    decreases b as nat
  {
    if b == 0 then 0 else 1 + ByteValue(b - 1)
  }

  lemma {:induction false} ByteValueIsConversion(b: byte)
    ensures ByteValue(b) == b as nat
    decreases b as nat
  {
    if b != 0 {
      ByteValueIsConversion(b - 1);
    }
  }

  function ByteOf(n: nat): (b: byte)
    requires n < 256
    ensures ByteValue(b) == n
  {
    if n == 0 then 0
    else
      var below := ByteOf(n - 1);
      ByteValueIsConversion(below);
      below + 1
  }

  /** The four base-256 digits of a 32-bit number, lowest first. */
  function Digits(u: nat): (d: (nat, nat, nat, nat)) {
    (u % 256, u / 256 % 256, u / 256 / 256 % 256, u / 256 / 256 / 256)
  }

  function FromDigits(d: (nat, nat, nat, nat)): nat {
    d.0 + 256 * (d.1 + 256 * (d.2 + 256 * d.3))
  }

  function IntBytes(x: int): (b: seq<byte>)
    requires INT_MIN <= x <= INT_MAX
    ensures |b| == 4
  {
    var d := Digits(x % 0x1_0000_0000);
    [ByteOf(d.0), ByteOf(d.1), ByteOf(d.2), ByteOf(d.3)]
  }

  function IntFrom(b: seq<byte>): int
    requires |b| == 4
  {
    ToInt32(FromDigits((ByteValue(b[0]), ByteValue(b[1]), ByteValue(b[2]), ByteValue(b[3]))))
  }

  lemma DigitsRoundTrip(u: nat)
    ensures FromDigits(Digits(u)) == u
  {
  }

  lemma WrapRoundTrip(x: int)
    requires INT_MIN <= x <= INT_MAX
    ensures ToInt32(x % 0x1_0000_0000) == x
  {
  }

  lemma IntRoundTrip(x: int)
    requires INT_MIN <= x <= INT_MAX
    ensures IntFrom(IntBytes(x)) == x
  {
    var u := x % 0x1_0000_0000;
    DigitsRoundTrip(u);
    WrapRoundTrip(x);
  }

  function MarkOf(b: byte): Mark {
    if b == 0 then Free else if b == 1 then Filled else Rip
  }

  function MarkByte(m: Mark): byte {
    match m
    case Free => 0
    case Filled => 1
    case Rip => 2
  }

  /** The cell a record stands for. */
  function Decode(cfg: Config, rec: seq<byte>): Cell
    requires |rec| == RECORD_SIZE
  {
    Cell(MarkOf(rec[KEY_SIZE]), CStr(rec[..KEY_SIZE]),
         if cfg.deadlines then IntFrom(rec[KEY_SIZE + 1..KEY_SIZE + 5]) else 0,
         CStr(rec[ValueAt(cfg)..]))
  }

  /** A record whose mark is one of the three and whose strings end inside their fields. */
  predicate WellFormed(cfg: Config, rec: seq<byte>)
    requires |rec| == RECORD_SIZE
  {
    rec[KEY_SIZE] <= 2 && 0 in rec[..KEY_SIZE] && 0 in rec[ValueAt(cfg)..]
  }

  function Splice(d: seq<byte>, p: nat, s: seq<byte>): (r: seq<byte>)
    requires p + |s| <= |d|
    ensures |r| == |d|
  {
    d[..p] + s + d[p + |s|..]
  }

  lemma SpliceIndex(d: seq<byte>, p: nat, s: seq<byte>, k: nat)
    requires p + |s| <= |d| && k < |d|
    ensures Splice(d, p, s)[k] == if p <= k < p + |s| then s[k - p] else d[k]
  {
  }

  lemma SpliceInside(d: seq<byte>, p: nat, s: seq<byte>)
    requires p + |s| <= |d|
    ensures Splice(d, p, s)[p..p + |s|] == s
  {
  }

  lemma SpliceApart(d: seq<byte>, p: nat, s: seq<byte>, a: nat, b: nat)
    requires p + |s| <= |d| && a <= b <= |d| && (b <= p || p + |s| <= a)
    ensures Splice(d, p, s)[a..b] == d[a..b]
  {
  }

  lemma Subslice(d: seq<byte>, a: nat, b: nat, c: nat, e: nat)
    requires a <= b <= |d| && c <= e <= b - a
    ensures d[a..b][c..e] == d[a + c..a + e]
  {
    var x, y := d[a..b][c..e], d[a + c..a + e];
    assert forall k :: 0 <= k < |y| ==> x[k] == y[k];
  }

  /** A field that starts with a string and its NUL holds that string. */
  lemma FieldHolds(field: seq<byte>, s: Text)
    requires IsText(s) && |s| < |field| && field[..|s| + 1] == s + [0]
    ensures CStr(field) == s && 0 in field
  {
    assert field[|s|] == field[..|s| + 1][|s|] == 0;
    assert field[..|s|] == field[..|s| + 1][..|s|] == s;
    CStrIs(field, s);
  }

  /** A record after `set` has copied key, deadline, value and mark into it, in that order. */
  function Written(cfg: Config, rec: seq<byte>, key: Text, deadline: int, value: Text): (r: seq<byte>)
    requires |rec| == RECORD_SIZE && FitsKey(key) && FitsValue(cfg, value) && INT_MIN <= deadline <= INT_MAX
    ensures |r| == RECORD_SIZE
  {
    var r1 := Splice(rec, 0, key + [0]);
    var r2 := if cfg.deadlines then Splice(r1, KEY_SIZE + 1, IntBytes(deadline)) else r1;
    var r3 := Splice(r2, ValueAt(cfg), value + [0]);
    Splice(r3, KEY_SIZE, [MarkByte(Filled)])
  }

  /** What was copied in is what is read back: no field of the record overlaps another. */
  lemma WrittenDecodes(cfg: Config, rec: seq<byte>, key: Text, deadline: int, value: Text)
    requires |rec| == RECORD_SIZE && FitsKey(key) && FitsValue(cfg, value) && INT_MIN <= deadline <= INT_MAX
    ensures WellFormed(cfg, Written(cfg, rec, key, deadline, value))
    ensures Decode(cfg, Written(cfg, rec, key, deadline, value))
         == Cell(Filled, key, if cfg.deadlines then deadline else 0, value)
  {
    WrittenFields(cfg, rec, key, deadline, value);
    var r, v := Written(cfg, rec, key, deadline, value), ValueAt(cfg);
    Subslice(r, 0, KEY_SIZE, 0, |key| + 1);
    FieldHolds(r[..KEY_SIZE], key);
    Subslice(r, v, RECORD_SIZE, 0, |value| + 1);
    FieldHolds(r[v..], value);
    assert r[KEY_SIZE] == r[KEY_SIZE..KEY_SIZE + 1][0];
    if cfg.deadlines {
      IntRoundTrip(deadline);
    }
  }

  lemma WrittenFields(cfg: Config, rec: seq<byte>, key: Text, deadline: int, value: Text)
    requires |rec| == RECORD_SIZE && FitsKey(key) && FitsValue(cfg, value) && INT_MIN <= deadline <= INT_MAX
    ensures var r, v := Written(cfg, rec, key, deadline, value), ValueAt(cfg);
            && r[0..|key| + 1] == key + [0]
            && r[KEY_SIZE..KEY_SIZE + 1] == [MarkByte(Filled)]
            && (cfg.deadlines ==> r[KEY_SIZE + 1..KEY_SIZE + 5] == IntBytes(deadline))
            && r[v..v + |value| + 1] == value + [0]
  {
    var k, v, n := |key| + 1, ValueAt(cfg), |value| + 1;
    var r1 := Splice(rec, 0, key + [0]);
    var r2 := if cfg.deadlines then Splice(r1, KEY_SIZE + 1, IntBytes(deadline)) else r1;
    var r3 := Splice(r2, v, value + [0]);
    SpliceInside(rec, 0, key + [0]);
    if cfg.deadlines {
      SpliceInside(r1, KEY_SIZE + 1, IntBytes(deadline));
      SpliceApart(r1, KEY_SIZE + 1, IntBytes(deadline), 0, k);
      SpliceApart(r2, v, value + [0], KEY_SIZE + 1, KEY_SIZE + 5);
      SpliceApart(r3, KEY_SIZE, [MarkByte(Filled)], KEY_SIZE + 1, KEY_SIZE + 5);
    }
    SpliceInside(r2, v, value + [0]);
    SpliceApart(r2, v, value + [0], 0, k);
    SpliceInside(r3, KEY_SIZE, [MarkByte(Filled)]);
    SpliceApart(r3, KEY_SIZE, [MarkByte(Filled)], 0, k);
    SpliceApart(r3, KEY_SIZE, [MarkByte(Filled)], v, v + n);
  }

  /** Burying changes the mark and nothing else. */
  lemma BuriedDecodes(cfg: Config, rec: seq<byte>)
    requires |rec| == RECORD_SIZE && WellFormed(cfg, rec)
    ensures WellFormed(cfg, Splice(rec, KEY_SIZE, [MarkByte(Rip)]))
    ensures Decode(cfg, Splice(rec, KEY_SIZE, [MarkByte(Rip)])) == Decode(cfg, rec).(mark := Rip)
  {
    var m := [MarkByte(Rip)];
    SpliceInside(rec, KEY_SIZE, m);
    SpliceApart(rec, KEY_SIZE, m, 0, KEY_SIZE);
    SpliceApart(rec, KEY_SIZE, m, ValueAt(cfg), RECORD_SIZE);
    SpliceApart(rec, KEY_SIZE, m, KEY_SIZE + 1, KEY_SIZE + 5);
    var r := Splice(rec, KEY_SIZE, m);
    assert r[KEY_SIZE] == r[KEY_SIZE..KEY_SIZE + 1][0];
    assert r[..KEY_SIZE] == r[0..KEY_SIZE] == rec[..KEY_SIZE];
    assert r[ValueAt(cfg)..] == r[ValueAt(cfg)..RECORD_SIZE] == rec[ValueAt(cfg)..];
  }

  lemma ZeroDecodes(cfg: Config, rec: seq<byte>)
    requires |rec| == RECORD_SIZE && forall q :: 0 <= q < RECORD_SIZE ==> rec[q] == 0
    ensures WellFormed(cfg, rec) && Decode(cfg, rec) == Blank
  {
    CStrIs(rec[..KEY_SIZE], []);
    CStrIs(rec[ValueAt(cfg)..], []);
    assert rec[..KEY_SIZE][0] == 0 && rec[ValueAt(cfg)..][0] == 0;
    if cfg.deadlines {
      var b := rec[KEY_SIZE + 1..KEY_SIZE + 5];
      assert b == [0, 0, 0, 0];
    }
  }

  // The whole memory as records.

  /** Where record `i` starts. */
  function At(i: nat): nat {
    1024 * i
  }

  function Record(d: seq<byte>, i: nat): (rec: seq<byte>)
    requires At(i + 1) <= |d|
    ensures |rec| == RECORD_SIZE
  {
    d[At(i)..At(i + 1)]
  }

  /** The memory holds these cells, record by record, and every record is well formed. */
  ghost predicate Shows(cfg: Config, d: seq<byte>, cells: seq<Cell>) {
    && |d| == At(|cells|)
    && forall i {:trigger Record(d, i)} :: 0 <= i < |cells| ==>
         WellFormed(cfg, Record(d, i)) && cells[i] == Decode(cfg, Record(d, i))
  }

  /** Mark and key of a cell, read from the flat memory. */
  lemma CellBytes(cfg: Config, d: seq<byte>, cells: seq<Cell>, i: nat)
    requires Shows(cfg, d, cells) && i < |cells|
    ensures var p := At(i);
            && cells[i].mark == MarkOf(d[p + KEY_SIZE]) && d[p + KEY_SIZE] <= 2
            && cells[i].key == CStr(d[p..p + KEY_SIZE]) && 0 in d[p..p + KEY_SIZE]
  {
    var rec := Record(d, i);
    Subslice(d, At(i), At(i + 1), 0, KEY_SIZE);
    assert rec[..KEY_SIZE] == rec[0..KEY_SIZE] && rec[KEY_SIZE] == d[At(i) + KEY_SIZE];
  }

  /** The value of a cell, read from the flat memory. */
  lemma CellValue(cfg: Config, d: seq<byte>, cells: seq<Cell>, i: nat)
    requires Shows(cfg, d, cells) && i < |cells|
    ensures var field := d[At(i) + ValueAt(cfg)..At(i) + RECORD_SIZE];
            cells[i].value == CStr(field) && 0 in field
  {
    var rec := Record(d, i);
    Subslice(d, At(i), At(i + 1), ValueAt(cfg), RECORD_SIZE);
    assert rec[ValueAt(cfg)..] == rec[ValueAt(cfg)..RECORD_SIZE];
  }

  lemma CellDeadline(cfg: Config, d: seq<byte>, cells: seq<Cell>, i: nat)
    requires Shows(cfg, d, cells) && i < |cells| && cfg.deadlines
    ensures cells[i].deadline == IntFrom(d[At(i) + KEY_SIZE + 1..At(i) + KEY_SIZE + 5])
  {
    var rec := Record(d, i);
    Subslice(d, At(i), At(i + 1), KEY_SIZE + 1, KEY_SIZE + 5);
  }

  lemma ZeroCells(cfg: Config, d: seq<byte>, cells: seq<Cell>)
    requires |d| == At(|cells|) && forall q :: 0 <= q < |d| ==> d[q] == 0
    requires forall i :: 0 <= i < |cells| ==> cells[i] == Blank
    ensures Shows(cfg, d, cells)
  {
    forall i | 0 <= i < |cells| ensures WellFormed(cfg, Record(d, i)) && cells[i] == Decode(cfg, Record(d, i)) {
      ZeroDecodes(cfg, Record(d, i));
    }
  }

  /** Two memories that differ in no record but `i`. */
  ghost predicate OnlyRecord(d: seq<byte>, d': seq<byte>, i: int) {
    |d'| == |d| &&
    forall j: nat {:trigger Record(d', j)} :: At(j + 1) <= |d| && j != i ==> Record(d', j) == Record(d, j)
  }

  /** Copying into one record leaves every other record as it was. */
  lemma Spliced(d: seq<byte>, d': seq<byte>, i: nat, q: nat, s: seq<byte>)
    requires At(i + 1) <= |d| && q + |s| <= RECORD_SIZE
    requires d' == Splice(d, At(i) + q, s)
    ensures Record(d', i) == Splice(Record(d, i), q, s)
    ensures OnlyRecord(d, d', i)
  {
    var x, y := Record(d', i), Splice(Record(d, i), q, s);
    forall k | 0 <= k < RECORD_SIZE ensures x[k] == y[k] {
      assert x[k] == d'[At(i) + k];
      SpliceIndex(d, At(i) + q, s, At(i) + k);
      SpliceIndex(Record(d, i), q, s, k);
    }
    forall j: nat {:trigger Record(d', j)} | At(j + 1) <= |d| && j != i ensures Record(d', j) == Record(d, j) {
      SpliceApart(d, At(i) + q, s, At(j), At(j + 1));
    }
  }

  lemma OnlyRecordTwice(d: seq<byte>, d': seq<byte>, d'': seq<byte>, i: nat)
    requires OnlyRecord(d, d', i) && OnlyRecord(d', d'', i)
    ensures OnlyRecord(d, d'', i)
  {
    forall j: nat {:trigger Record(d'', j)} | At(j + 1) <= |d| && j != i ensures Record(d'', j) == Record(d, j) {
      assert Record(d'', j) == Record(d', j);
    }
  }

  /** Changing one record changes one cell. */
  lemma ShowsUpdate(cfg: Config, d: seq<byte>, d': seq<byte>, cells: seq<Cell>, i: nat, c: Cell)
    requires Shows(cfg, d, cells) && |d'| == |d| && i < |cells|
    requires WellFormed(cfg, Record(d', i)) && Decode(cfg, Record(d', i)) == c
    requires OnlyRecord(d, d', i)
    ensures Shows(cfg, d', cells[i := c])
  {
    forall j {:trigger Record(d', j)} | 0 <= j < |cells|
      ensures WellFormed(cfg, Record(d', j)) && cells[i := c][j] == Decode(cfg, Record(d', j))
    {
      if j != i {
        assert Record(d', j) == Record(d, j);
      }
    }
  }

  /** The four copies of a `set` into record `i` of a memory write that record and no other. */
  lemma RecordCopied(cfg: Config, d0: seq<byte>, d1: seq<byte>, d2: seq<byte>, d3: seq<byte>, d4: seq<byte>,
                     i: nat, key: Text, deadline: int, value: Text)
    requires FitsKey(key) && FitsValue(cfg, value) && INT_MIN <= deadline <= INT_MAX
    requires At(i + 1) <= |d0|
    requires d1 == Splice(d0, At(i), key + [0])
    requires d2 == if cfg.deadlines then Splice(d1, At(i) + KEY_SIZE + 1, IntBytes(deadline)) else d1
    requires d3 == Splice(d2, At(i) + ValueAt(cfg), value + [0])
    requires d4 == Splice(d3, At(i) + KEY_SIZE, [MarkByte(Filled)])
    ensures Record(d4, i) == Written(cfg, Record(d0, i), key, deadline, value)
    ensures OnlyRecord(d0, d4, i)
  {
    Spliced(d0, d1, i, 0, key + [0]);
    if cfg.deadlines {
      Spliced(d1, d2, i, KEY_SIZE + 1, IntBytes(deadline));
      OnlyRecordTwice(d0, d1, d2, i);
    }
    Spliced(d2, d3, i, ValueAt(cfg), value + [0]);
    OnlyRecordTwice(d0, d2, d3, i);
    Spliced(d3, d4, i, KEY_SIZE, [MarkByte(Filled)]);
    OnlyRecordTwice(d0, d3, d4, i);
  }

  lemma RecordWritten(cfg: Config, d: seq<byte>, d': seq<byte>, cells: seq<Cell>, i: nat,
                      key: Text, deadline: int, value: Text)
    requires FitsKey(key) && FitsValue(cfg, value) && INT_MIN <= deadline <= INT_MAX
    requires Shows(cfg, d, cells) && i < |cells| && |d'| == |d|
    requires Record(d', i) == Written(cfg, Record(d, i), key, deadline, value) && OnlyRecord(d, d', i)
    ensures Shows(cfg, d', cells[i := Cell(Filled, key, if cfg.deadlines then deadline else 0, value)])
  {
    WrittenDecodes(cfg, Record(d, i), key, deadline, value);
    ShowsUpdate(cfg, d, d', cells, i, Cell(Filled, key, if cfg.deadlines then deadline else 0, value));
  }

  lemma RecordBuried(cfg: Config, d: seq<byte>, d': seq<byte>, cells: seq<Cell>, i: nat)
    requires Shows(cfg, d, cells) && i < |cells|
    requires d' == Splice(d, At(i) + KEY_SIZE, [MarkByte(Rip)])
    ensures Shows(cfg, d', cells[i := cells[i].(mark := Rip)])
    ensures OnlyRecord(d, d', i)
  {
    Spliced(d, d', i, KEY_SIZE, [MarkByte(Rip)]);
    BuriedDecodes(cfg, Record(d, i));
    ShowsUpdate(cfg, d, d', cells, i, cells[i].(mark := Rip));
  }
}
