/** MurmurHash3 x86-32, the hash that picks a key's first cell. */
module Murmur3 {
  import opened Bytes

  // The steps of the hash, each beside the step that undoes it.

  function XorShift16(x: bv32): bv32 { x ^ (x >> 16) }
  function XorShift13(x: bv32): bv32 { x ^ (x >> 13) }
  function UndoXorShift13(x: bv32): bv32 { x ^ (x >> 13) ^ (x >> 26) }
  function Rotl13(x: bv32): bv32 { (x << 13) | (x >> 19) }
  function UndoRotl13(x: bv32): bv32 { (x >> 13) | (x << 19) }
  function Rotl15(x: bv32): bv32 { (x << 15) | (x >> 17) }
  function UndoRotl15(x: bv32): bv32 { (x >> 15) | (x << 17) }
  function TimesC1(x: bv32): bv32 { x * 0xcc9e2d51 }
  function UndoTimesC1(x: bv32): bv32 { x * 0xdee13bb1 }
  function TimesC2(x: bv32): bv32 { x * 0x1b873593 }
  function UndoTimesC2(x: bv32): bv32 { x * 0x56ed309b }
  function TimesM1(x: bv32): bv32 { x * 0x85ebca6b }
  function UndoTimesM1(x: bv32): bv32 { x * 0xa5cb9243 }
  function TimesM2(x: bv32): bv32 { x * 0xc2b2ae35 }
  function UndoTimesM2(x: bv32): bv32 { x * 0x7ed1b41d }
  function Advance(x: bv32): bv32 { x * 5 + 0xe6546b64 }
  function UndoAdvance(x: bv32): bv32 { (x - 0xe6546b64) * 0xcccccccd }
  function Absorb(h: bv32, k: bv32): bv32 { h ^ k }

  lemma ShiftBits(x: bv32)
    ensures XorShift16(x ^ (x >> 16)) == x
    ensures UndoXorShift13(x ^ (x >> 13)) == x
  {
  }

  lemma ShiftBitsBack(x: bv32)
    ensures XorShift13(x ^ (x >> 13) ^ (x >> 26)) == x
  {
  }

  lemma ShiftsUndone(x: bv32)
    ensures XorShift16(XorShift16(x)) == x
    ensures UndoXorShift13(XorShift13(x)) == x
    ensures XorShift13(UndoXorShift13(x)) == x
  {
    ShiftBits(x);
    ShiftBitsBack(x);
  }

  lemma RotationsUndone(x: bv32)
    ensures UndoRotl13(Rotl13(x)) == x
    ensures UndoRotl15(Rotl15(x)) == x
  {
  }

  lemma BlockProductsUndone(x: bv32)
    ensures UndoTimesC1(TimesC1(x)) == x
    ensures UndoTimesC2(TimesC2(x)) == x
    ensures UndoAdvance(Advance(x)) == x
  {
  }

  lemma FinalProductBits(x: bv32)
    ensures UndoTimesM1(x * 0x85ebca6b) == x && TimesM1(x * 0xa5cb9243) == x
    ensures UndoTimesM2(x * 0xc2b2ae35) == x && TimesM2(x * 0x7ed1b41d) == x
  {
  }

  lemma FinalProductsUndone(x: bv32)
    ensures UndoTimesM1(TimesM1(x)) == x && TimesM1(UndoTimesM1(x)) == x
    ensures UndoTimesM2(TimesM2(x)) == x && TimesM2(UndoTimesM2(x)) == x
  {
    FinalProductBits(x);
  }

  lemma AbsorbUndone(h: bv32, k: bv32)
    ensures Absorb(Absorb(h, k), k) == h && Absorb(Absorb(h, k), h) == k
  {
  }

  function MixBlock(k: bv32): bv32 {
    TimesC2(Rotl15(TimesC1(k)))
  }

  function Round(h: bv32, k: bv32): bv32 {
    Advance(Rotl13(Absorb(h, MixBlock(k))))
  }

  function Fmix32(h: bv32): bv32 {
    XorShift16(TimesM2(XorShift13(TimesM1(XorShift16(h)))))
  }

  function Unmix32(h: bv32): bv32 {
    XorShift16(UndoTimesM1(UndoXorShift13(UndoTimesM2(XorShift16(h)))))
  }

  /** The finalizer is a bijection on 32-bit words, with `Unmix32` as its inverse. */
  lemma FmixBijective(h: bv32)
    ensures Unmix32(Fmix32(h)) == h
    ensures Fmix32(Unmix32(h)) == h
  {
    FmixThenUnmix(h);
    UnmixThenFmix(h);
  }

  lemma FmixThenUnmix(h: bv32)
    ensures Unmix32(Fmix32(h)) == h
  {
    var a := XorShift16(h);
    var b := TimesM1(a);
    var c := XorShift13(b);
    ShiftsUndone(TimesM2(c));
    FinalProductsUndone(c);
    ShiftsUndone(b);
    FinalProductsUndone(a);
    ShiftsUndone(h);
  }

  lemma UnmixThenFmix(h: bv32)
    ensures Fmix32(Unmix32(h)) == h
  {
    var d := XorShift16(h);
    var c := UndoTimesM2(d);
    var b := UndoXorShift13(c);
    ShiftsUndone(UndoTimesM1(b));
    FinalProductsUndone(b);
    ShiftsUndone(c);
    FinalProductsUndone(d);
    ShiftsUndone(h);
  }

  lemma MixBlockInjective(k: bv32, k': bv32)
    requires MixBlock(k) == MixBlock(k')
    ensures k == k'
  {
    MixBlockUndone(k);
    MixBlockUndone(k');
  }

  lemma MixBlockUndone(k: bv32)
    ensures UndoTimesC1(UndoRotl15(UndoTimesC2(MixBlock(k)))) == k
  {
    BlockProductsUndone(Rotl15(TimesC1(k)));
    RotationsUndone(TimesC1(k));
    BlockProductsUndone(k);
  }

  lemma RoundUndone(h: bv32, k: bv32)
    ensures UndoRotl13(UndoAdvance(Round(h, k))) == Absorb(h, MixBlock(k))
  {
    BlockProductsUndone(Rotl13(Absorb(h, MixBlock(k))));
    RotationsUndone(Absorb(h, MixBlock(k)));
  }

  /** One block round loses nothing: when two rounds agree, equal running hashes mean equal
      blocks and equal blocks mean equal running hashes. */
  lemma RoundInjective(h: bv32, h': bv32, k: bv32, k': bv32)
    requires Round(h, k) == Round(h', k')
    ensures h == h' <==> k == k'
  {
    RoundUndone(h, k);
    RoundUndone(h', k');
    AbsorbUndone(h, MixBlock(k));
    AbsorbUndone(h', MixBlock(k'));
    if h == h' {
      MixBlockInjective(k, k');
    }
  }

  /** What follows the block rounds: absorb the tail and the length, then finalize. */
  function Finish(h: bv32, tail: bv32, length: bv32): bv32 {
    Fmix32(Absorb(Absorb(h, MixBlock(tail)), length))
  }

  lemma FinishInjective(h: bv32, h': bv32, t: bv32, t': bv32, length: bv32)
    requires Finish(h, t, length) == Finish(h', t', length)
    ensures h == h' <==> t == t'
  {
    var x, x' := Absorb(h, MixBlock(t)), Absorb(h', MixBlock(t'));
    FmixBijective(Absorb(x, length));
    FmixBijective(Absorb(x', length));
    AbsorbUndone(x, length);
    AbsorbUndone(x', length);
    AbsorbUndone(h, MixBlock(t));
    AbsorbUndone(h', MixBlock(t'));
    if h == h' {
      MixBlockInjective(t, t');
    }
  }

  // Keys as blocks and a tail.

  function FromBytes(a: byte, b: byte, c: byte, d: byte): bv32 {
    (a as bv32) | ((b as bv32) << 8) | ((c as bv32) << 16) | ((d as bv32) << 24)
  }

  lemma FromBytesInjective(a: byte, b: byte, c: byte, d: byte, a': byte, b': byte, c': byte, d': byte)
    requires FromBytes(a, b, c, d) == FromBytes(a', b', c', d')
    ensures a == a' && b == b' && c == c' && d == d'
  {
  }

  /** Block `i` of a key, read in little-endian order. */
  function Block(key: seq<byte>, i: nat): bv32
    requires 4 * i + 4 <= |key|
  {
    FromBytes(key[4 * i], key[4 * i + 1], key[4 * i + 2], key[4 * i + 3])
  }

  /** The last `|key| % 4` bytes as one word. */
  function TailWord(key: seq<byte>): bv32 {
    var p := |key| / 4 * 4;
    FromBytes(if p < |key| then key[p] else 0, if p + 1 < |key| then key[p + 1] else 0,
              if p + 2 < |key| then key[p + 2] else 0, 0)
  }

  function Blocks(key: seq<byte>): (blocks: seq<bv32>)
    ensures |blocks| == |key| / 4
  {
    seq(|key| / 4, i requires 0 <= i < |key| / 4 => Block(key, i))
  }

  /** The running hash after all the blocks, each absorbed by one round. */
  function Fold<W>(round: (W, W) -> W, h: W, blocks: seq<W>): W {
    if blocks == [] then h else round(Fold(round, h, blocks[..|blocks| - 1]), blocks[|blocks| - 1])
  }

  function LengthWord(n: nat): bv32 {
    (n % 0x1_0000_0000) as bv32
  }

  /** The 32-bit hash before it is reduced to a cell index. */
  function Hash32(key: seq<byte>): bv32 {
    Finish(Fold(Round, 0, Blocks(key)), TailWord(key), LengthWord(|key|))
  }

  function CellOf(key: seq<byte>, tableSize: nat): (h: nat)
    requires tableSize > 0
    ensures h < tableSize
  {
    (Hash32(key) as nat) % tableSize
  }

  // Known answers of MurmurHash3 x86-32 with seed 0.

  lemma MixedWords()
    ensures MixBlock(0x63_6261) == 0xa734_9db7
    ensures MixBlock(0x6463_6261) == 0x5b94_33b7
    ensures MixBlock(0x6c6c_6568) == 0xa0ae_7465
    ensures MixBlock(0x6f) == 0x73bc_d07e
    ensures MixBlock(0) == 0
  {
  }

  lemma RoundedWords()
    ensures Round(0, 0x6463_6261) == 0x86a7_049e
    ensures Round(0, 0x6c6c_6568) == 0xef13_efcd
  {
    MixedWords();
  }

  lemma FinishedWords()
    ensures Finish(0, 0, 0) == 0
    ensures Finish(0, 0x63_6261, 3) == 0xb3dd_93fa
    ensures Finish(0x86a7_049e, 0, 4) == 0x43ed_676a
    ensures Finish(0xef13_efcd, 0x6f, 5) == 0x248b_fa47
  {
    MixedWords();
    assert Fmix32(0xa734_9db4) == 0xb3dd_93fa;
    assert Fmix32(0x86a7_049a) == 0x43ed_676a;
    assert Fmix32(0x9caf_3fb6) == 0x248b_fa47;
  }

  lemma OneBlock(key: seq<byte>)
    requires 4 <= |key| < 8
    ensures Fold(Round, 0, Blocks(key)) == Round(0, FromBytes(key[0], key[1], key[2], key[3]))
  {
    assert Blocks(key) == [Block(key, 0)];
    assert Blocks(key)[..0] == [];
  }

  lemma TailOf(key: seq<byte>)
    requires |key| < 6
    ensures |key| == 0 || |key| == 4 ==> TailWord(key) == FromBytes(0, 0, 0, 0)
    ensures |key| == 3 ==> TailWord(key) == FromBytes(key[0], key[1], key[2], 0)
    ensures |key| == 5 ==> TailWord(key) == FromBytes(key[4], 0, 0, 0)
  {
  }

  lemma ShortLengths()
    ensures LengthWord(0) == 0 && LengthWord(3) == 3 && LengthWord(4) == 4 && LengthWord(5) == 5
  {
  }

  lemma ShortWords()
    ensures FromBytes(0, 0, 0, 0) == 0 && FromBytes(0x6f, 0, 0, 0) == 0x6f
    ensures FromBytes(0x61, 0x62, 0x63, 0) == 0x63_6261
    ensures FromBytes(0x61, 0x62, 0x63, 0x64) == 0x6463_6261 && FromBytes(0x68, 0x65, 0x6c, 0x6c) == 0x6c6c_6568
  {
  }

  lemma ShortHash(key: seq<byte>, h: bv32, tail: bv32, length: bv32)
    requires |key| < 6 && TailWord(key) == tail && LengthWord(|key|) == length
    requires h == if |key| < 4 then 0 else Round(0, FromBytes(key[0], key[1], key[2], key[3]))
    ensures Hash32(key) == Finish(h, tail, length)
  {
    if |key| < 4 {
      assert Blocks(key) == [];
    } else {
      OneBlock(key);
    }
  }

  /** The hashes of the empty string, of `abc`, of `abcd` and of `hello`. */
  lemma KnownAnswers(key: seq<byte>)
    ensures key == [] ==> Hash32(key) == 0
    ensures key == [0x61, 0x62, 0x63] ==> Hash32(key) == 0xb3dd_93fa
    ensures key == [0x61, 0x62, 0x63, 0x64] ==> Hash32(key) == 0x43ed_676a
    ensures key == [0x68, 0x65, 0x6c, 0x6c, 0x6f] ==> Hash32(key) == 0x248b_fa47
  {
    FinishedWords();
    if key == [] {
      KnownHash(key, 0, 0, 0);
    } else if key == [0x61, 0x62, 0x63] {
      KnownHash(key, 0, 0x63_6261, 3);
    } else if key == [0x61, 0x62, 0x63, 0x64] {
      KnownHash(key, 0x86a7_049e, 0, 4);
    } else if key == [0x68, 0x65, 0x6c, 0x6c, 0x6f] {
      KnownHash(key, 0xef13_efcd, 0x6f, 5);
    }
  }

  lemma HelloWord()
    ensures (0x248b_fa47 as bv32) as nat == 0x248b_fa47
  {
  }

  /** In a table of 1024 cells `hello` belongs into cell 583. */
  lemma KnownCell(key: seq<byte>)
    requires key == [0x68, 0x65, 0x6c, 0x6c, 0x6f]
    ensures CellOf(key, 1024) == 583
  {
    KnownAnswers(key);
    var h := Hash32(key);
    HelloWord();
    assert h as nat == 0x248b_fa47;
  }

  lemma KnownHash(key: seq<byte>, h: bv32, tail: bv32, length: bv32)
    requires (key == [] && h == 0 && tail == 0 && length == 0)
      || (key == [0x61, 0x62, 0x63] && h == 0 && tail == 0x63_6261 && length == 3)
      || (key == [0x61, 0x62, 0x63, 0x64] && h == 0x86a7_049e && tail == 0 && length == 4)
      || (key == [0x68, 0x65, 0x6c, 0x6c, 0x6f] && h == 0xef13_efcd && tail == 0x6f && length == 5)
    ensures Hash32(key) == Finish(h, tail, length)
  {
    ShortLengths();
    RoundedWords();
    ShortWords();
    TailOf(key);
    ShortHash(key, h, tail, length);
  }

  ghost predicate Separating<W(!new)>(round: (W, W) -> W) {
    forall h, h', k, k' :: round(h, k) == round(h', k') ==> (h == h' <==> k == k')
  }

  /** When rounds separate, block lists that differ at one place only never fold to the same hash. */
  lemma {:induction false} FoldSeparates<W(!new)>(round: (W, W) -> W, h: W, s: seq<W>, t: seq<W>, j: nat)
    requires Separating(round)
    requires |s| == |t|
    requires forall i :: 0 <= i < |s| && i != j ==> s[i] == t[i]
    ensures Fold(round, h, s) == Fold(round, h, t) <==> s == t
  {
    if s != [] {
      var n := |s| - 1;
      FoldSeparates(round, h, s[..n], t[..n], j);
      assert s == s[..n] + [s[n]] && t == t[..n] + [t[n]];
      assert s == t <==> s[..n] == t[..n] && s[n] == t[n];
      assert j < n ==> s[n] == t[n];
      assert j >= n ==> s[..n] == t[..n];
    }
  }

  lemma RoundSeparates()
    ensures Separating(Round)
  {
    forall h, h', k, k' | Round(h, k) == Round(h', k') ensures h == h' <==> k == k' {
      RoundInjective(h, h', k, k');
    }
  }

  /** Keys of one length whose bytes differ inside a single four-byte block, the tail counting
      as the last block, never share a 32-bit hash. */
  lemma OneBlockSeparates(a: seq<byte>, b: seq<byte>, j: nat)
    requires |a| == |b| && a != b
    requires forall i :: 0 <= i < |a| && i / 4 != j ==> a[i] == b[i]
    ensures Hash32(a) != Hash32(b)
  {
    var d :| 0 <= d < |a| && a[d] != b[d];
    assert d / 4 == j;
    RoundSeparates();
    BlocksElsewhereAgree(a, b, j);
    FoldSeparates(Round, 0, Blocks(a), Blocks(b), j);
    if j < |a| / 4 {
      BlocksDiffer(a, b, j, d);
      assert Blocks(a)[j] != Blocks(b)[j];
      TailsAgree(a, b);
    } else {
      TailsDiffer(a, b, d);
      assert Blocks(a) == Blocks(b);
    }
    if Hash32(a) == Hash32(b) {
      FinishInjective(Fold(Round, 0, Blocks(a)), Fold(Round, 0, Blocks(b)), TailWord(a), TailWord(b), LengthWord(|a|));
    }
  }

  lemma BlocksElsewhereAgree(a: seq<byte>, b: seq<byte>, j: nat)
    requires |a| == |b|
    requires forall i :: 0 <= i < |a| && i / 4 != j ==> a[i] == b[i]
    ensures forall i :: 0 <= i < |a| / 4 && i != j ==> Blocks(a)[i] == Blocks(b)[i]
  {
    forall i | 0 <= i < |a| / 4 && i != j ensures Block(a, i) == Block(b, i) {
      assert a[4 * i] == b[4 * i] && a[4 * i + 1] == b[4 * i + 1];
      assert a[4 * i + 2] == b[4 * i + 2] && a[4 * i + 3] == b[4 * i + 3];
    }
  }

  lemma TailsAgree(a: seq<byte>, b: seq<byte>)
    requires |a| == |b| && a[|a| / 4 * 4..] == b[|a| / 4 * 4..]
    ensures TailWord(a) == TailWord(b)
  {
    var p := |a| / 4 * 4;
    assert forall i :: p <= i < |a| ==> a[i] == a[p..][i - p];
    assert forall i :: p <= i < |a| ==> b[i] == b[p..][i - p];
  }

  lemma BlocksDiffer(a: seq<byte>, b: seq<byte>, j: nat, d: nat)
    requires |a| == |b| && 4 * j <= d < 4 * j + 4 <= |a| && a[d] != b[d]
    ensures Block(a, j) != Block(b, j)
  {
    if Block(a, j) == Block(b, j) {
      FromBytesInjective(a[4 * j], a[4 * j + 1], a[4 * j + 2], a[4 * j + 3],
                         b[4 * j], b[4 * j + 1], b[4 * j + 2], b[4 * j + 3]);
    }
  }

  lemma TailsDiffer(a: seq<byte>, b: seq<byte>, d: nat)
    requires |a| == |b| && |a| / 4 * 4 <= d < |a| && a[d] != b[d]
    ensures TailWord(a) != TailWord(b)
  {
    var p := |a| / 4 * 4;
    if TailWord(a) == TailWord(b) {
      FromBytesInjective(a[p], if p + 1 < |a| then a[p + 1] else 0, if p + 2 < |a| then a[p + 2] else 0, 0,
                         b[p], if p + 1 < |a| then b[p + 1] else 0, if p + 2 < |a| then b[p + 2] else 0, 0);
    }
  }

  /** The hash as the table computes it: the blocks, then the tail switch, then the finalizer. */
  method Hash(key: seq<byte>, tableSize: nat) returns (h: nat)
    requires tableSize > 0
    ensures h == CellOf(key, tableSize)
  {
    var nblocks := |key| / 4;
    var h1: bv32 := 0;
    var i: int := -nblocks;
    while i != 0
      invariant -nblocks <= i <= 0
      invariant h1 == Fold(Round, 0, Blocks(key)[..nblocks + i])
      decreases -i
    {
      var k1 := Block(key, nblocks + i);
      k1 := TimesC1(k1);
      k1 := Rotl15(k1);
      k1 := TimesC2(k1);
      h1 := Absorb(h1, k1);
      h1 := Rotl13(h1);
      h1 := Advance(h1);
      i := i + 1;
      assert Blocks(key)[..nblocks + i][..nblocks + i - 1] == Blocks(key)[..nblocks + i - 1];
    }
    assert Blocks(key)[..nblocks] == Blocks(key);
    h1 := AbsorbTail(h1, key);
    h1 := Absorb(h1, LengthWord(|key|));
    h1 := Fmix32(h1);
    return (h1 as nat) % tableSize;
  }

  method AbsorbTail(h: bv32, key: seq<byte>) returns (h1: bv32)
    ensures h1 == Absorb(h, MixBlock(TailWord(key)))
  {
    var tail := key[|key| / 4 * 4..];
    var rest := |key| % 4;
    var k1: bv32 := 0;
    if rest == 0 {
      NoTail(h);
      return h;
    }
    if rest == 3 { k1 := AddByte2(k1, tail[2]); } else { NoByte(); }
    if rest >= 2 { k1 := AddByte1(k1, tail[1]); } else { NoByte(); }
    k1 := AddByte0(k1, tail[0]);
    TailBytes(tail[0], if rest >= 2 then tail[1] else 0, if rest == 3 then tail[2] else 0);
    return Absorb(h, MixBlock(k1));
  }

  function AddByte0(k: bv32, b: byte): bv32 { k ^ (b as bv32) }
  function AddByte1(k: bv32, b: byte): bv32 { k ^ ((b as bv32) << 8) }
  function AddByte2(k: bv32, b: byte): bv32 { k ^ ((b as bv32) << 16) }

  lemma TailBits(a: byte, b: byte, c: byte)
    ensures AddByte0(((0 as bv32) ^ ((c as bv32) << 16)) ^ ((b as bv32) << 8), a) == FromBytes(a, b, c, 0)
  {
  }

  lemma TailBytes(a: byte, b: byte, c: byte)
    ensures AddByte0(AddByte1(AddByte2(0, c), b), a) == FromBytes(a, b, c, 0)
  {
    TailBits(a, b, c);
  }

  lemma NoByte()
    ensures AddByte2(0, 0) == 0 && AddByte1(0, 0) == 0
  {
  }

  lemma NoTail(h: bv32)
    ensures Absorb(h, MixBlock(FromBytes(0, 0, 0, 0))) == h
  {
  }
}
