/** What the key/value table promises its users: a map whose cells are used up by fresh
    keys and never given back. `spent` counts the fresh inserts of the whole life of the table. */
module Stores {
  import opened Bytes

  type Text = seq<byte>

  datatype Entry = Entry(value: Text, deadline: int)

  datatype Store = Store(live: map<Text, Entry>, spent: nat)

  datatype Command =
    | Get(key: Text)
    | Set(key: Text, entry: Entry)
    | Del(key: Text)
    | Sweep(dead: set<Text>)

  /** The answer of the table: status 0 with, for a `Get`, the value found, or status -1. */
  datatype Reply = Value(value: Text) | Done | Fail

  const Empty := Store(map[], 0)

  /** One command run against a table of `capacity` cells. A sweep is a garbage collection that finds these keys
      dead. */
  function Apply(s: Store, capacity: nat, c: Command): (Store, Reply) {
    match c
    case Get(key) =>
      (s, if key in s.live then Value(s.live[key].value) else Fail)
    case Set(key, entry) =>
      if key in s.live then (s.(live := s.live[key := entry]), Done)
      else if s.spent < capacity then (Store(s.live[key := entry], s.spent + 1), Done)
      else (s, Fail)
    case Del(key) =>
      if key in s.live then (s.(live := s.live - {key}), Done) else (s, Fail)
    case Sweep(dead) =>
      (s.(live := s.live - dead), Done)
  }

  /** The table left by a list of commands, run in order. */
  function After(s: Store, capacity: nat, cs: seq<Command>): Store {
    if cs == [] then s else Apply(After(s, capacity, cs[..|cs| - 1]), capacity, cs[|cs| - 1]).0
  }

  /** The answers given to a list of commands, run in order. */
  function Replies(s: Store, capacity: nat, cs: seq<Command>): (r: seq<Reply>)
    ensures |r| == |cs|
  {
    if cs == [] then []
    else
      var before := cs[..|cs| - 1];
      Replies(s, capacity, before) + [Apply(After(s, capacity, before), capacity, cs[|cs| - 1]).1]
  }

  /** A `Set` that is granted a cell not used before. */
  predicate IsFresh(s: Store, capacity: nat, c: Command) {
    c.Set? && c.key !in s.live && Apply(s, capacity, c).1 == Done
  }

  /** How many of the commands were fresh inserts. */
  function FreshInserts(s: Store, capacity: nat, cs: seq<Command>): nat {
    if cs == [] then 0
    else
      var before := cs[..|cs| - 1];
      FreshInserts(s, capacity, before) + if IsFresh(After(s, capacity, before), capacity, cs[|cs| - 1]) then 1 else 0
  }

  /** Every fresh insert spends one cell, neither deletion nor sweep gives one back, and there are never more than
      `capacity`. */
  lemma {:induction false} SpentCounts(s: Store, capacity: nat, cs: seq<Command>)
    requires s.spent <= capacity
    ensures After(s, capacity, cs).spent == s.spent + FreshInserts(s, capacity, cs) <= capacity
  {
    if cs != [] {
      SpentCounts(s, capacity, cs[..|cs| - 1]);
    }
  }

  /** After any commands and sweeps on an empty table, a `Set` fails exactly when its key is absent and as many
      fresh inserts as there are cells have been made. */
  lemma SetFailsExactly(capacity: nat, cs: seq<Command>, key: Text, entry: Entry)
    ensures Replies(Empty, capacity, cs + [Set(key, entry)])[|cs|] == Fail
       <==> key !in After(Empty, capacity, cs).live && FreshInserts(Empty, capacity, cs) == capacity
  {
    SpentCounts(Empty, capacity, cs);
    assert (cs + [Set(key, entry)])[..|cs|] == cs;
  }

  /** After any commands and sweeps, a `Del` fails exactly when its key is absent, and a `Get` likewise. */
  lemma DelFailsExactly(capacity: nat, cs: seq<Command>, key: Text)
    ensures Replies(Empty, capacity, cs + [Del(key)])[|cs|] == Fail <==> key !in After(Empty, capacity, cs).live
    ensures Replies(Empty, capacity, cs + [Get(key)])[|cs|] == Fail <==> key !in After(Empty, capacity, cs).live
  {
    assert (cs + [Del(key)])[..|cs|] == cs && (cs + [Get(key)])[..|cs|] == cs;
  }

  /** After a `Del` its key is absent, whether it was there or not, every other key has its entry, and no cell is
      given back. */
  lemma DelRemoves(capacity: nat, cs: seq<Command>, key: Text, other: Text)
    ensures var (s, s') := (After(Empty, capacity, cs), After(Empty, capacity, cs + [Del(key)]));
            && key !in s'.live && s'.spent == s.spent
            && (other != key ==> (other in s'.live <==> other in s.live))
            && (other != key && other in s.live ==> s'.live[other] == s.live[other])
  {
    assert (cs + [Del(key)])[..|cs|] == cs;
  }

  // What clients can say about the answers, without knowing the store: from earlier commands and their answers.

  datatype Held<V> = Absent | Present(value: V)

  /** What was last done to a key, as far as the answers tell: the entry of the last granted `Set`, unless a granted
      `Del` or a sweep of the key came after it. */
  function Latest(cs: seq<Command>, rs: seq<Reply>, key: Text): Held<Entry>
    requires |rs| == |cs|
  {
    if cs == [] then Absent
    else
      var k := |cs| - 1;
      match cs[k]
      case Set(x, entry) => if x == key && rs[k] == Done then Present(entry) else Latest(cs[..k], rs[..k], key)
      case Del(x) => if x == key && rs[k] == Done then Absent else Latest(cs[..k], rs[..k], key)
      case Sweep(dead) => if key in dead then Absent else Latest(cs[..k], rs[..k], key)
      case Get(_) => Latest(cs[..k], rs[..k], key)
  }

  /** How many granted `Set`s there were of keys absent at that time. */
  function NewKeys(cs: seq<Command>, rs: seq<Reply>): nat
    requires |rs| == |cs|
  {
    if cs == [] then 0
    else
      var k := |cs| - 1;
      NewKeys(cs[..k], rs[..k])
      + if cs[k].Set? && rs[k] == Done && Latest(cs[..k], rs[..k], cs[k].key) == Absent then 1 else 0
  }

  /** The answer that a command must get after such a history. */
  predicate Follows(capacity: nat, cs: seq<Command>, rs: seq<Reply>, c: Command, r: Reply)
    requires |rs| == |cs|
  {
    match c
    case Get(key) =>
      var held := Latest(cs, rs, key);
      if held.Present? then r == Value(held.value.value) else r == Fail
    case Set(key, _) =>
      r == if Latest(cs, rs, key) == Absent && NewKeys(cs, rs) >= capacity then Fail else Done
    case Del(key) =>
      r == if Latest(cs, rs, key) == Absent then Fail else Done
    case Sweep(_) => r == Done
  }

  lemma {:induction false} HistoryIsStore(capacity: nat, cs: seq<Command>, key: Text)
    ensures var (s, rs) := (After(Empty, capacity, cs), Replies(Empty, capacity, cs));
            && Latest(cs, rs, key) == (if key in s.live then Present(s.live[key]) else Absent)
            && NewKeys(cs, rs) == s.spent
  {
    if cs != [] {
      var k := |cs| - 1;
      assert Replies(Empty, capacity, cs)[..k] == Replies(Empty, capacity, cs[..k]);
      HistoryIsStore(capacity, cs[..k], key);
      if cs[k].Set? {
        HistoryIsStore(capacity, cs[..k], cs[k].key);
      }
    }
  }

  lemma {:induction false} RepliesSoFar(capacity: nat, cs: seq<Command>, i: nat)
    requires i <= |cs|
    ensures Replies(Empty, capacity, cs)[..i] == Replies(Empty, capacity, cs[..i])
  {
    if i < |cs| {
      var k := |cs| - 1;
      RepliesSoFar(capacity, cs[..k], i);
      assert cs[..k][..i] == cs[..i];
      assert Replies(Empty, capacity, cs)[..i] == Replies(Empty, capacity, cs[..k])[..i];
    } else {
      assert cs[..i] == cs;
    }
  }

  /** Every answer is the one that earlier commands and their answers call for: a `Get` finds what was last set, a
      `Del` succeeds on what is there, and a `Set` is refused exactly for a new key with all cells granted. */
  lemma RepliesFollow(capacity: nat, cs: seq<Command>, i: nat)
    requires i < |cs|
    ensures var rs := Replies(Empty, capacity, cs); Follows(capacity, cs[..i], rs[..i], cs[i], rs[i])
  {
    RepliesSoFar(capacity, cs, i);
    RepliesSoFar(capacity, cs, i + 1);
    assert cs[..i + 1][..i] == cs[..i];
    var s := After(Empty, capacity, cs[..i]);
    assert Replies(Empty, capacity, cs)[i] == Replies(Empty, capacity, cs)[..i + 1][i] == Apply(s, capacity, cs[i]).1;
    SpentCounts(Empty, capacity, cs[..i]);
    if !cs[i].Sweep? {
      HistoryIsStore(capacity, cs[..i], cs[i].key);
    }
  }

  /** Every `Set` stores a deadline that a clock past 0 can reach. */
  predicate AllDated(cs: seq<Command>) {
    forall i :: 0 <= i < |cs| && cs[i].Set? ==> cs[i].entry.deadline > 0
  }

  /** After such commands every live entry has one. */
  lemma {:induction false} LiveDated(capacity: nat, cs: seq<Command>, key: Text)
    requires AllDated(cs) && key in After(Empty, capacity, cs).live
    ensures After(Empty, capacity, cs).live[key].deadline > 0
  {
    if cs != [] {
      var before, c := cs[..|cs| - 1], cs[|cs| - 1];
      if key in After(Empty, capacity, before).live {
        LiveDated(capacity, before, key);
      }
    }
  }
}
