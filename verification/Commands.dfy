/** Command lines as commands alternating with operators, and which commands of a line are executed. */
module Commands {
  datatype OpType = Pipeline | Or | Background | And

  datatype Item = Words(words: seq<string>) | Oper(op: OpType)

  predicate IsOperator(s: string) {
    s == "||" || s == "&&" || s == "|" || s == "&"
  }

  function OpOf(s: string): OpType
    requires IsOperator(s)
  {
    if s == "|" then Pipeline else if s == "||" then Or else if s == "&" then Background else And
  }

  function Sign(op: OpType): string {
    match op
    case Pipeline => "|"
    case Or => "||"
    case Background => "&"
    case And => "&&"
  }

  /** The items after a command and an operator are read. */
  function Extended(items: seq<Item>, words: seq<string>, op: OpType): seq<Item> {
    items + [Words(words), Oper(op)]
  }

  /** The loop over the tokens, with the items and the words of the current command so far. */
  function Group(items: seq<Item>, current: seq<string>, tokens: seq<string>): seq<Item>
    decreases |tokens|
  {
    if tokens == [] then
      if current == [] then items else items + [Words(current)]
    else if IsOperator(tokens[0]) then
      Group(Extended(items, current, OpOf(tokens[0])), [], tokens[1..])
    else
      Group(items, current + [tokens[0]], tokens[1..])
  }

  function Items(tokens: seq<string>): seq<Item> {
    Group([], [], tokens)
  }

  // Grouping is a bijection between tokens and alternating lists.

  function Text(item: Item): seq<string> {
    match item
    case Words(words) => words
    case Oper(op) => [Sign(op)]
  }

  function Ungroup(items: seq<Item>): seq<string> {
    if items == [] then [] else Ungroup(items[..|items| - 1]) + Text(items[|items| - 1])
  }

  predicate NoOperator(words: seq<string>) {
    forall i :: 0 <= i < |words| ==> !IsOperator(words[i])
  }

  predicate Alternates(items: seq<Item>) {
    forall i :: 0 <= i < |items| ==> (items[i].Words? <==> i % 2 == 0)
  }

  /** Commands and operators in turn, no operator inside a command, and no empty command at the end. */
  predicate Grouped(items: seq<Item>) {
    && Alternates(items)
    && (forall i :: 0 <= i < |items| && items[i].Words? ==> NoOperator(items[i].words))
    && (|items| % 2 == 1 ==> items[|items| - 1].words != [])
  }

  lemma UngroupSnoc(items: seq<Item>, item: Item)
    ensures Ungroup(items + [item]) == Ungroup(items) + Text(item)
  {
    assert (items + [item])[..|items|] == items;
  }

  lemma Shift(u: seq<string>, c: seq<string>, t: seq<string>)
    requires t != []
    ensures (u + c + [t[0]]) + [] + t[1..] == u + c + t
    ensures u + (c + [t[0]]) + t[1..] == u + c + t
  {
  }

  lemma ExtendedText(items: seq<Item>, words: seq<string>, op: OpType)
    ensures Ungroup(Extended(items, words, op)) == Ungroup(items) + words + [Sign(op)]
  {
    UngroupSnoc(items, Words(words));
    UngroupSnoc(items + [Words(words)], Oper(op));
    assert items + [Words(words)] + [Oper(op)] == Extended(items, words, op);
  }

  lemma {:induction false} GroupText(items: seq<Item>, current: seq<string>, tokens: seq<string>)
    ensures Ungroup(Group(items, current, tokens)) == Ungroup(items) + current + tokens
    decreases |tokens|
  {
    if tokens == [] {
      UngroupSnoc(items, Words(current));
      assert Ungroup(items) + current + tokens == Ungroup(items) + current;
    } else {
      Shift(Ungroup(items), current, tokens);
      if IsOperator(tokens[0]) {
        ExtendedText(items, current, OpOf(tokens[0]));
        GroupText(Extended(items, current, OpOf(tokens[0])), [], tokens[1..]);
      } else {
        GroupText(items, current + [tokens[0]], tokens[1..]);
      }
    }
  }

  lemma {:induction false} GroupGrouped(items: seq<Item>, current: seq<string>, tokens: seq<string>)
    requires Grouped(items) && |items| % 2 == 0 && NoOperator(current)
    ensures Grouped(Group(items, current, tokens))
    decreases |tokens|
  {
    if tokens != [] {
      if IsOperator(tokens[0]) {
        GroupGrouped(Extended(items, current, OpOf(tokens[0])), [], tokens[1..]);
      } else {
        GroupGrouped(items, current + [tokens[0]], tokens[1..]);
      }
    }
  }

  /** No token is lost or moved, and commands and operators alternate. */
  lemma ItemsKeep(tokens: seq<string>)
    ensures Grouped(Items(tokens)) && Ungroup(Items(tokens)) == tokens
  {
    GroupText([], [], tokens);
    GroupGrouped([], [], tokens);
    assert [] + [] + tokens == tokens;
  }

  lemma {:induction false} GroupWords(items: seq<Item>, current: seq<string>, words: seq<string>, rest: seq<string>)
    requires NoOperator(words)
    ensures Group(items, current, words + rest) == Group(items, current + words, rest)
    decreases |words|
  {
    if words == [] {
      assert words + rest == rest && current + words == current;
    } else {
      assert (words + rest)[1..] == words[1..] + rest;
      GroupWords(items, current + [words[0]], words[1..], rest);
      assert current + [words[0]] + words[1..] == current + words;
    }
  }

  lemma {:induction false} GroupUngroup(items: seq<Item>, rest: seq<string>)
    requires Alternates(items) && |items| % 2 == 0
    requires forall i :: 0 <= i < |items| && items[i].Words? ==> NoOperator(items[i].words)
    ensures Group([], [], Ungroup(items) + rest) == Group(items, [], rest)
    decreases |items|
  {
    if items == [] {
      assert Ungroup(items) + rest == rest;
    } else {
      var n := |items| - 2;
      var front, words, op := items[..n], items[n].words, items[n + 1].op;
      assert items == Extended(front, words, op);
      ExtendedText(front, words, op);
      assert Ungroup(front) + words + [Sign(op)] + rest == Ungroup(front) + (words + ([Sign(op)] + rest));
      GroupUngroup(front, words + ([Sign(op)] + rest));
      GroupPair(front, words, op, rest);
    }
  }

  lemma GroupPair(items: seq<Item>, words: seq<string>, op: OpType, rest: seq<string>)
    requires NoOperator(words)
    ensures Group(items, [], words + ([Sign(op)] + rest)) == Group(Extended(items, words, op), [], rest)
  {
    GroupWords(items, [], words, [Sign(op)] + rest);
    assert [] + words == words;
    assert ([Sign(op)] + rest)[1..] == rest;
  }

  /** Every alternating list comes from its own tokens. */
  lemma UngroupItems(items: seq<Item>)
    requires Grouped(items)
    ensures Items(Ungroup(items)) == items
  {
    if |items| % 2 == 0 {
      GroupUngroup(items, []);
      assert Ungroup(items) + [] == Ungroup(items);
    } else {
      var n := |items| - 1;
      GroupUngroup(items[..n], items[n].words);
      LastWords(items[..n], items[n].words);
      assert items == items[..n] + [Words(items[n].words)];
    }
  }

  lemma LastWords(items: seq<Item>, words: seq<string>)
    requires NoOperator(words) && words != []
    ensures Group(items, [], words) == items + [Words(words)]
  {
    GroupWords(items, [], words, []);
    assert words + [] == words && [] + words == words;
  }

  // What the operators are called.

  predicate PlainWords(words: seq<string>) {
    forall i :: 0 <= i < |words| ==> words[i] != "&&" && words[i] != "||" && words[i] != "|" && words[i] != "&"
  }

  lemma Joined(x: seq<string>, op: OpType, y: seq<string>)
    requires PlainWords(x) && PlainWords(y) && y != []
    ensures Items(x + [Sign(op)] + y) == [Words(x), Oper(op), Words(y)]
    ensures Items(x + [Sign(op)]) == [Words(x), Oper(op)]
  {
    var front := Extended([], x, op);
    GroupPair([], x, op, y);
    LastWords(front, y);
    assert x + [Sign(op)] + y == x + ([Sign(op)] + y);
    assert front == [Words(x), Oper(op)];
    GroupPair([], x, op, []);
    assert x + [Sign(op)] == x + ([Sign(op)] + []);
  }

  /** The four texts that join commands, and what each of them does. */
  lemma JoinedItems(x: seq<string>, y: seq<string>)
    requires PlainWords(x) && PlainWords(y) && y != []
    ensures Items(x + ["&&"] + y) == [Words(x), Oper(And), Words(y)]
    ensures Items(x + ["||"] + y) == [Words(x), Oper(Or), Words(y)]
    ensures Items(x + ["|"] + y) == [Words(x), Oper(Pipeline), Words(y)]
    ensures Items(x + ["&"] + y) == [Words(x), Oper(Background), Words(y)]
    ensures Items(x + ["&"]) == [Words(x), Oper(Background)]
    ensures Items(y) == [Words(y)]
  {
    Joined(x, And, y);
    Joined(x, Or, y);
    Joined(x, Pipeline, y);
    Joined(x, Background, y);
    LastWords([], y);
  }

  // Which commands of a line are executed. The command at place n, if executed, ends with codes(n).

  predicate StopsAt(op: OpType, code: int) {
    (op.Or? && code == 0) || (op.And? && code != 0)
  }

  /** Where the loop over the items ends, and the exit code it has then: at the operator that stops it,
      or at the end of the line. */
  function Halt(items: seq<Item>, codes: nat -> int, i: nat, code: int): (r: (nat, int))
    requires i <= |items|
    ensures i <= r.0 <= |items|
    decreases |items| - i
  {
    if i == |items| then (i, code)
    else match items[i]
      case Words(_) => Halt(items, codes, i + 1, codes(i))
      case Oper(op) => if StopsAt(op, code) then (i, code) else Halt(items, codes, i + 1, code)
  }

  function Stop(items: seq<Item>, codes: nat -> int): nat {
    Halt(items, codes, 0, -1).0
  }

  /** The places of the commands from `i` to before `k`. */
  function Places(items: seq<Item>, i: nat, k: nat): seq<nat>
    requires i <= k <= |items|
    decreases k - i
  {
    if i == k then [] else if items[i].Words? then [i] + Places(items, i + 1, k) else Places(items, i + 1, k)
  }

  /** The commands that the shell executes. */
  function Executed(items: seq<Item>, codes: nat -> int): seq<nat> {
    Places(items, 0, Stop(items, codes))
  }

  /** AND-OR lists by section 2.9.3 of the POSIX Shell Command Language: `&&` and `||` bind equally and
      from the left, and a pipeline that is skipped leaves the exit status as it was. */
  function AndOrList(items: seq<Item>, codes: nat -> int, i: nat, code: int, skip: bool): seq<nat>
    requires i <= |items|
    decreases |items| - i
  {
    if i == |items| then []
    else match items[i]
      case Words(_) =>
        if skip then AndOrList(items, codes, i + 1, code, true)
        else [i] + AndOrList(items, codes, i + 1, codes(i), false)
      case Oper(And) => AndOrList(items, codes, i + 1, code, code != 0)
      case Oper(Or) => AndOrList(items, codes, i + 1, code, code == 0)
      case Oper(_) => AndOrList(items, codes, i + 1, code, skip)
  }

  /** Commands joined by `|`, `&&` and `||`. */
  predicate IsList(items: seq<Item>) {
    && Alternates(items) && |items| % 2 == 1
    && forall i :: 0 <= i < |items| && items[i].Oper? ==> !items[i].op.Background?
  }

  predicate OtherKind(item: Item, op: OpType) {
    item.Oper? && ((op.And? && item.op.Or?) || (op.Or? && item.op.And?))
  }

  /** Some operator from place `i` on is of the other kind than `op`. */
  predicate OtherFollows(items: seq<Item>, i: nat, op: OpType) {
    exists k :: i <= k < |items| && OtherKind(items[k], op)
  }

  /** Once something is skipped, everything is, unless an operator of the other kind comes. */
  lemma {:induction false} SkipsRest(items: seq<Item>, codes: nat -> int, i: nat, code: int, op: OpType)
    requires IsList(items) && i <= |items| && StopsAt(op, code)
    ensures AndOrList(items, codes, i, code, true) == [] <==> !OtherFollows(items, i, op)
    decreases |items| - i
  {
    if i < |items| && !OtherKind(items[i], op) {
      SkipsRest(items, codes, i + 1, code, op);
      assert OtherFollows(items, i, op) <==> OtherFollows(items, i + 1, op);
    }
  }

  lemma {:induction false} SameUntilHalt(items: seq<Item>, codes: nat -> int, i: nat, code: int)
    requires i <= |items|
    ensures var (k, c) := Halt(items, codes, i, code);
            && (k < |items| ==> items[k].Oper? && StopsAt(items[k].op, c))
            && AndOrList(items, codes, i, code, false)
               == Places(items, i, k) + if k < |items| then AndOrList(items, codes, k + 1, c, true) else []
    decreases |items| - i
  {
    if i < |items| {
      match items[i]
      case Words(_) =>
        var (k, c) := Halt(items, codes, i + 1, codes(i));
        SameUntilHalt(items, codes, i + 1, codes(i));
        var rest := if k < |items| then AndOrList(items, codes, k + 1, c, true) else [];
        assert [i] + (Places(items, i + 1, k) + rest) == [i] + Places(items, i + 1, k) + rest;
      case Oper(op) =>
        if !StopsAt(op, code) {
          SameUntilHalt(items, codes, i + 1, code);
        }
    }
  }

  /** The shell executes the list as POSIX has it exactly when no operator of the other kind follows the one
      that stops it; otherwise it executes less, from the same beginning. */
  lemma ExecutedIsAndOr(items: seq<Item>, codes: nat -> int)
    requires IsList(items)
    ensures var k := Stop(items, codes);
            && Executed(items, codes) <= AndOrList(items, codes, 0, -1, false)
            && (k < |items| ==> items[k].Oper?)
            && (Executed(items, codes) == AndOrList(items, codes, 0, -1, false)
                <==> k == |items| || !OtherFollows(items, k + 1, items[k].op))
  {
    var (k, c) := Halt(items, codes, 0, -1);
    SameUntilHalt(items, codes, 0, -1);
    if k < |items| {
      SkipsRest(items, codes, k + 1, c, items[k].op);
    }
  }

  // For which lines the shell is right whatever the exit codes.

  /** `false && a || b`: the shell stops at `&&`, while POSIX goes on to `b`. */
  lemma StopsTooEarly(items: seq<Item>, codes: nat -> int)
    requires items == [Words(["false"]), Oper(And), Words(["a"]), Oper(Or), Words(["b"])] && codes(0) != 0
    ensures IsList(items) && Executed(items, codes) == [0] && AndOrList(items, codes, 0, -1, false) == [0, 4]
  {
    assert Halt(items, codes, 0, -1) == Halt(items, codes, 1, codes(0)) == (1, codes(0));
    assert Places(items, 0, 1) == [0] + Places(items, 1, 1);
    assert AndOrList(items, codes, 1, codes(0), false) == AndOrList(items, codes, 2, codes(0), true);
    assert AndOrList(items, codes, 3, codes(0), true) == AndOrList(items, codes, 4, codes(0), false);
    assert AndOrList(items, codes, 4, codes(0), false) == [4] + AndOrList(items, codes, 5, codes(4), false);
  }

  predicate Contains(items: seq<Item>, op: OpType) {
    exists k :: 0 <= k < |items| && items[k] == Oper(op)
  }

  /** With one exit code for all commands, the loop comes to the first `&&` or `||`. */
  lemma {:induction false} ReachesFirst(items: seq<Item>, c: int, i: nat, code: int, k: nat)
    requires i <= k < |items| && items[k].Oper? && StopsAt(items[k].op, c)
    requires forall j :: i <= j < k && items[j].Oper? ==> !items[j].op.And? && !items[j].op.Or?
    requires code == c || (i < k && items[i].Words?)
    ensures Halt(items, _ => c, i, code) == (k, c)
    decreases k - i
  {
    if i < k {
      ReachesFirst(items, c, i + 1, if items[i].Words? then c else code, k);
    }
  }

  lemma FirstChoice(items: seq<Item>) returns (k: nat)
    requires Contains(items, And) || Contains(items, Or)
    ensures k < |items| && items[k].Oper? && (items[k].op.And? || items[k].op.Or?)
    ensures forall j :: 0 <= j < k && items[j].Oper? ==> !items[j].op.And? && !items[j].op.Or?
  {
    var last :| 0 <= last < |items| && (items[last] == Oper(And) || items[last] == Oper(Or));
    k := 0;
    while !(items[k].Oper? && (items[k].op.And? || items[k].op.Or?))
      invariant k <= last
      invariant forall j :: 0 <= j < k && items[j].Oper? ==> !items[j].op.And? && !items[j].op.Or?
      decreases last - k
    {
      k := k + 1;
    }
  }

  /** Some exit codes make the shell differ from POSIX on a line with both operators. */
  lemma MixedDiffers(items: seq<Item>) returns (codes: nat -> int)
    requires IsList(items) && Contains(items, And) && Contains(items, Or)
    ensures Executed(items, codes) != AndOrList(items, codes, 0, -1, false)
  {
    var k := FirstChoice(items);
    var c := if items[k].op.And? then 1 else 0;
    codes := _ => c;
    ReachesFirst(items, c, 0, -1, k);
    ExecutedIsAndOr(items, codes);
    var other := if items[k].op.And? then Or else And;
    var j :| 0 <= j < |items| && items[j] == Oper(other);
    assert j > k && OtherKind(items[j], items[k].op);
    assert OtherFollows(items, k + 1, items[k].op);
  }

  /** The shell executes a line as POSIX has it, whatever the commands' exit codes, exactly when the line does not
      mix `&&` and `||`. */
  lemma AlwaysAndOr(items: seq<Item>)
    requires IsList(items)
    ensures (forall codes: nat -> int :: Executed(items, codes) == AndOrList(items, codes, 0, -1, false))
       <==> !(Contains(items, And) && Contains(items, Or))
  {
    if Contains(items, And) && Contains(items, Or) {
      var codes := MixedDiffers(items);
    } else {
      forall codes: nat -> int ensures Executed(items, codes) == AndOrList(items, codes, 0, -1, false) {
        ExecutedIsAndOr(items, codes);
        var (k, c) := Halt(items, codes, 0, -1);
        SameUntilHalt(items, codes, 0, -1);
      }
    }
  }

  lemma {:induction false} PlacesSplit(items: seq<Item>, i: nat, k: nat, n: nat)
    requires i <= k <= n <= |items|
    ensures Places(items, i, n) == Places(items, i, k) + Places(items, k, n)
    decreases k - i
  {
    if i < k {
      PlacesSplit(items, i + 1, k, n);
    }
  }

  lemma {:induction false} PlacesAre(items: seq<Item>, i: nat, k: nat, p: nat)
    requires i <= k <= |items|
    ensures p in Places(items, i, k) <==> i <= p < k && items[p].Words?
    decreases k - i
  {
    if i < k {
      PlacesAre(items, i + 1, k, p);
    }
  }

  /** An operator lets the line go on after a command that ended with a code: `&&` after 0, `||` after anything else,
      and the others always. */
  predicate Passes(op: OpType, code: int) {
    (op.And? ==> code == 0) && (op.Or? ==> code != 0)
  }

  lemma {:induction false} HaltsAfter(items: seq<Item>, codes: nat -> int, i: nat, code: int, p: nat)
    requires Alternates(items) && i <= p < |items| && items[p].Words?
    requires i % 2 == 1 ==> code == codes(i - 1)
    ensures Halt(items, codes, i, code).0 > p
       <==> forall q :: i <= q < p && items[q].Oper? ==> Passes(items[q].op, codes(q - 1))
    decreases p - i
  {
    if i < p {
      if items[i].Words? {
        HaltsAfter(items, codes, i + 1, codes(i), p);
      } else if !StopsAt(items[i].op, code) {
        assert i + 1 < |items| && items[i + 1].Words?;
        HaltsAfter(items, codes, i + 1, code, p);
      }
    }
  }

  /** Exactly which commands are executed: those before which every operator lets the line go on. */
  lemma ExecutedExactly(items: seq<Item>, codes: nat -> int, p: nat)
    requires Alternates(items) && p < |items| && items[p].Words?
    ensures p in Executed(items, codes)
       <==> forall q :: 0 <= q < p && items[q].Oper? ==> Passes(items[q].op, codes(q - 1))
  {
    HaltsAfter(items, codes, 0, -1, p);
    PlacesAre(items, 0, Stop(items, codes), p);
  }

  /** Two commands joined: the second is executed, by the text between them, after code 0, after any other, or
      always. */
  lemma JoinedRuns(x: seq<string>, y: seq<string>, codes: nat -> int)
    requires PlainWords(x) && PlainWords(y) && y != []
    ensures Executed(Items(x + ["&&"] + y), codes) == if codes(0) == 0 then [0, 2] else [0]
    ensures Executed(Items(x + ["||"] + y), codes) == if codes(0) == 0 then [0] else [0, 2]
    ensures Executed(Items(x + ["|"] + y), codes) == [0, 2]
    ensures Executed(Items(x + ["&"] + y), codes) == [0, 2]
  {
    JoinedItems(x, y);
    ThreeItems(x, And, y, codes);
    ThreeItems(x, Or, y, codes);
    ThreeItems(x, Pipeline, y, codes);
    ThreeItems(x, Background, y, codes);
  }

  lemma ThreeItems(x: seq<string>, op: OpType, y: seq<string>, codes: nat -> int)
    ensures Executed([Words(x), Oper(op), Words(y)], codes) == if Passes(op, codes(0)) then [0, 2] else [0]
  {
    var items := [Words(x), Oper(op), Words(y)];
    assert Halt(items, codes, 0, -1) == Halt(items, codes, 1, codes(0));
    assert Halt(items, codes, 2, codes(0)) == Halt(items, codes, 3, codes(2)) == (3, codes(2));
    assert Places(items, 0, 1) == [0] + Places(items, 1, 1);
    assert Places(items, 0, 3) == [0] + Places(items, 1, 3) && Places(items, 1, 3) == Places(items, 2, 3)
      && Places(items, 2, 3) == [2] + Places(items, 3, 3);
  }

  /** The executed commands are the first ones of the line, in order. */
  lemma ExecutedFirst(items: seq<Item>, codes: nat -> int)
    ensures Executed(items, codes) <= Places(items, 0, |items|)
  {
    PlacesSplit(items, 0, Stop(items, codes), |items|);
  }
}
