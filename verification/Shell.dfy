/** The shell's code: commands with their descriptors, the builder of the sequence, and the runner. */
module Shell {
  import opened Commands
  import opened Files
  import opened Pipelines
  import Tokenizer

  /** How a child ended. */
  datatype Status = NotRun | Exited(code: int) | Signaled(signal: int)

  /** A child ended by a signal counts as code 0. */
  function ExitCode(status: Status): int {
    if status.Exited? then status.code else 0
  }

  // The shell process: its descriptors, what it has closed, and the descriptors of the children it forked.

  /** Not an end of a pipe of this line or a later one. */
  predicate Earlier(x: Target, line: nat) {
    x.Plain? || x.line < line
  }

  ghost predicate DescriptorsOk(t: Table, closed: multiset<Target>, next: int, line: nat) {
    && (forall fd :: fd in t ==> 0 <= fd < next && Earlier(t[fd], line))
    && (forall x :: x in closed ==> Earlier(x, line))
  }

  lemma ParentOk(t: Table, closed: multiset<Target>, next: int, line: nat, w: Wiring)
    requires DescriptorsOk(t, closed, next, line)
    ensures DescriptorsOk(ParentTable(t, w), closed + ParentCloses(t, w), next, line)
  {
  }

  /** A file has been opened under a descriptor not used before, or could not be opened. */
  ghost predicate Opens(t: Table, next: int, canOpen: (string, bool) -> bool, name: string, writing: bool, t': Table,
        next': int, fd: int) {
    && next <= next' && Extends(t, t') && SameStandard(t, t') && (fd == -1 || next <= fd < next')
    && Shown(Some(name), canOpen, writing, t', true, fd)
  }

  /** A command's files have been opened since the shell had the descriptors `t`, and shown in its wiring. */
  ghost predicate Named(t: Table, next: int, canOpen: (string, bool) -> bool, r: Redirections, w: Wiring, t': Table,
        next': int) {
    && next <= next' && Extends(t, t') && SameStandard(t, t')
    && w.otherSide == 0 && OwnApart(w)
    && (w.stdinFd == -1 || next <= w.stdinFd < next') && (w.stdoutFd == -1 || next <= w.stdoutFd < next')
    && Shown(r.input, canOpen, false, t', w.stdinRedirected, w.stdinFd)
    && Shown(r.output, canOpen, true, t', w.stdoutRedirected, w.stdoutFd)
  }

  lemma NamedInput(t: Table, next: int, canOpen: (string, bool) -> bool, r: Redirections, w: Wiring, t': Table,
        next': int, name: string, t'': Table, next'': int, fd: int)
    requires Named(t, next, canOpen, r, w, t', next') && 2 < next
    requires Opens(t', next', canOpen, name, false, t'', next'', fd)
    ensures Named(t, next, canOpen, r.(input := Some(name)), w.(stdinFd := fd, stdinRedirected := true), t'', next'')
  {
  }

  lemma NamedOutput(t: Table, next: int, canOpen: (string, bool) -> bool, r: Redirections, w: Wiring, t': Table,
        next': int, name: string, t'': Table, next'': int, fd: int)
    requires Named(t, next, canOpen, r, w, t', next') && 2 < next
    requires Opens(t', next', canOpen, name, true, t'', next'', fd)
    ensures Named(t, next, canOpen, r.(output := Some(name)), w.(stdoutFd := fd, stdoutRedirected := true), t'', next'')
  {
  }

  /** A child when it runs its command: the words it runs and its descriptors. */
  datatype Child = Child(args: seq<string>, table: Table)

  class Process {
    var table: Table
    var next: int
    var line: nat
    var closed: multiset<Target>
    var children: seq<Child>
    const canOpen: (string, bool) -> bool

    ghost predicate Valid()
      reads this
    {
      next > 2 && DescriptorsOk(table, closed, next, line + 1)
    }

    /** No pipe of the current line has been made. */
    ghost predicate NoPipes()
      reads this
    {
      (forall fd :: fd in table ==> Earlier(table[fd], line)) && (forall x :: x in closed ==> Earlier(x, line))
    }

    constructor (canOpen: (string, bool) -> bool)
      ensures Valid() && NoPipes() && children == []
    {
      table := map[0 := Plain("stdin"), 1 := Plain("stdout"), 2 := Plain("stderr")];
      next, line := 3, 0;
      closed := multiset{};
      children := [];
      this.canOpen := canOpen;
    }

    /** A forked child has copies of everything. */
    constructor Forked(parent: Process)
      ensures table == parent.table && next == parent.next && line == parent.line && closed == parent.closed
      ensures children == [] && canOpen == parent.canOpen
    {
      table, next, line, closed := parent.table, parent.next, parent.line, parent.closed;
      children := [];
      canOpen := parent.canOpen;
    }

    method BeginLine()
      requires Valid()
      modifies this`line
      ensures line == old(line) + 1 && Valid() && NoPipes()
    {
      line := line + 1;
    }

    method Close(fd: int)
      modifies this`table, this`closed
      ensures table == Closed(old(table), fd) && closed == old(closed) + ClosedBy(old(table), fd)
    {
      closed := closed + ClosedBy(table, fd);
      table := Closed(table, fd);
    }

    /** A new descriptor for the file, or -1. */
    method Open(name: string, writing: bool) returns (fd: int)
      requires Valid()
      modifies this`table, this`next
      ensures Valid() && Opens(old(table), old(next), canOpen, name, writing, table, next, fd)
    {
      if canOpen(name, writing) {
        fd := next;
        table := table[fd := Plain(name)];
        next := next + 1;
      } else {
        fd := -1;
      }
    }

    method Pipe(place: nat) returns (r: int, w: int)
      requires Valid()
      modifies this`table, this`next
      ensures Valid() && r == old(next) && w == r + 1 && next == w + 1
      ensures table == Piped(line, old(table), place, r, w)
    {
      r, w := next, next + 1;
      next := next + 2;
      table := Piped(line, table, place, r, w);
    }
  }

  // Commands.

  class CommandItem {
    var args: seq<string>
    var status: Status
    var stdinFd: int
    var stdoutFd: int
    var otherSideOfPipeFd: int
    var stdinRedirected: bool
    var stdoutRedirected: bool

    ghost function Wires(): Wiring
      reads this`stdinFd, this`stdoutFd, this`otherSideOfPipeFd, this`stdinRedirected, this`stdoutRedirected
    {
      Wiring(stdinFd, stdoutFd, otherSideOfPipeFd, stdinRedirected, stdoutRedirected)
    }

    /** Opens the files named by `<` and `>` and keeps the other words as arguments. */
    constructor (cmdTokens: seq<string>, process: Process)
      requires process.Valid() && Complete(cmdTokens)
      modifies process`table, process`next
      ensures process.Valid() && status == NotRun && args == Redirected(cmdTokens).args
      ensures Named(old(process.table), old(process.next), process.canOpen, Redirected(cmdTokens), Wires(),
        process.table, process.next)
    {
      args, status := [], NotRun;
      stdinFd, stdoutFd, otherSideOfPipeFd := -1, -1, 0;
      stdinRedirected, stdoutRedirected := false, false;
      new;
      var tokenIdx := 0;
      ghost var t, next := process.table, process.next;
      ghost var r := Redirections([], None, None);
      while tokenIdx < |cmdTokens|
        invariant tokenIdx <= |cmdTokens| && CompleteFrom(cmdTokens, tokenIdx)
        invariant Scan(cmdTokens, tokenIdx, r) == Redirected(cmdTokens) && args == r.args
        invariant process.Valid() && status == NotRun
        invariant Named(t, next, process.canOpen, r, Wires(), process.table, process.next)
      {
        if cmdTokens[tokenIdx] == "<" {
          tokenIdx := tokenIdx + 1;
          OpenInput(cmdTokens[tokenIdx], process, t, next, r);
          r := r.(input := Some(cmdTokens[tokenIdx]));
        } else if cmdTokens[tokenIdx] == ">" {
          tokenIdx := tokenIdx + 1;
          OpenOutput(cmdTokens[tokenIdx], process, t, next, r);
          r := r.(output := Some(cmdTokens[tokenIdx]));
        } else {
          args := args + [cmdTokens[tokenIdx]];
          r := r.(args := args);
        }
        tokenIdx := tokenIdx + 1;
      }
    }

    method OpenInput(name: string, process: Process, ghost t: Table, ghost next: int, ghost r: Redirections)
      requires process.Valid() && 2 < next
      requires Named(t, next, process.canOpen, r, Wires(), process.table, process.next)
      modifies this`stdinFd, this`stdinRedirected, process`table, process`next
      ensures process.Valid()
      ensures Named(t, next, process.canOpen, r.(input := Some(name)), Wires(), process.table, process.next)
    {
      ghost var w, t', next' := Wires(), process.table, process.next;
      stdinFd := process.Open(name, false);
      stdinRedirected := true;
      NamedInput(t, next, process.canOpen, r, w, t', next', name, process.table, process.next, stdinFd);
    }

    method OpenOutput(name: string, process: Process, ghost t: Table, ghost next: int, ghost r: Redirections)
      requires process.Valid() && 2 < next
      requires Named(t, next, process.canOpen, r, Wires(), process.table, process.next)
      modifies this`stdoutFd, this`stdoutRedirected, process`table, process`next
      ensures process.Valid()
      ensures Named(t, next, process.canOpen, r.(output := Some(name)), Wires(), process.table, process.next)
    {
      ghost var w, t', next' := Wires(), process.table, process.next;
      stdoutFd := process.Open(name, true);
      stdoutRedirected := true;
      NamedOutput(t, next, process.canOpen, r, w, t', next', name, process.table, process.next, stdoutFd);
    }

    method RedirectStdin(fd: int, otherSideFd: int)
      modifies this`stdinFd, this`stdinRedirected, this`otherSideOfPipeFd
      ensures Wires() == old(Wires()).(stdinFd := fd, stdinRedirected := true, otherSide := otherSideFd)
    {
      stdinFd := fd;
      stdinRedirected := true;
      otherSideOfPipeFd := otherSideFd;
    }

    method RedirectStdout(fd: int, otherSideFd: int)
      modifies this`stdoutFd, this`stdoutRedirected, this`otherSideOfPipeFd
      ensures Wires() == old(Wires()).(stdoutFd := fd, stdoutRedirected := true, otherSide := otherSideFd)
    {
      stdoutFd := fd;
      stdoutRedirected := true;
      otherSideOfPipeFd := otherSideFd;
    }

    /** The child's side of the fork, up to `execvp`: from copies of the shell's descriptors to the command's. */
    method BecomeCommand(inherited: Table) returns (child: Table)
      ensures child == ChildTable(inherited, Wires())
    {
      child := inherited;
      var other := otherSideOfPipeFd;
      if stdinRedirected {
        child := Closed(child, 0);
        child := Duplicated(child, stdinFd, 0);
        child := Closed(child, stdinFd);
        if other != 0 {
          child := Closed(child, other);
          other := 0;
        }
      }
      if stdoutRedirected {
        child := Closed(child, 1);
        child := Duplicated(child, stdoutFd, 1);
        child := Closed(child, stdoutFd);
        if other != 0 {
          child := Closed(child, other);
          other := 0;
        }
      }
    }

    /** Forks a child with the command's descriptors, closes them here, and waits: the child ends with `outcome`. */
    method Run(process: Process, outcome: Status)
      modifies this`status, process`table, process`closed, process`children
      ensures status == outcome
      ensures process.table == ParentTable(old(process.table), Wires())
      ensures process.closed == old(process.closed) + ParentCloses(old(process.table), Wires())
      ensures process.children == old(process.children) + [Child(args, ChildTable(old(process.table), Wires()))]
    {
      var child := BecomeCommand(process.table);
      process.children := process.children + [Child(args, child)];
      if stdinRedirected {
        process.Close(stdinFd);
      }
      if stdoutRedirected {
        process.Close(stdoutFd);
      }
      status := outcome;
    }

    function GetExitCode(): int
      reads this`status
    {
      ExitCode(status)
    }
  }

  // The sequence of a line.

  datatype Element = Command(item: CommandItem) | Operator(op: OpType)

  ghost function Objects(es: seq<Element>): set<CommandItem> {
    set i | 0 <= i < |es| && es[i].Command? :: es[i].item
  }

  /** The elements stand for the items and are wired as `ws` says. */
  ghost predicate Stands(es: seq<Element>, items: seq<Item>, ws: seq<Wiring>)
    requires AllComplete(items)
    reads Objects(es)
  {
    && |es| == |items| == |ws|
    && (forall i :: 0 <= i < |es| ==>
          match items[i]
          case Words(words) => es[i].Command? && es[i].item.Wires() == ws[i]
            && es[i].item.args == Redirected(words).args
          case Oper(op) => es[i] == Operator(op))
    && (forall i, j :: 0 <= i < j < |es| && es[i].Command? && es[j].Command? ==> es[i].item != es[j].item)
  }

  /** Nothing is piped yet. */
  ghost predicate Unpiped(line: nat, ws: seq<Wiring>, t: Table, next: int) {
    && (forall fd :: fd in t ==> Earlier(t[fd], line))
    && Unused(ws, t, next)
    && forall j :: 0 <= j < |ws| ==> FilesOnly(ws[j], t)
  }

  ghost predicate FilesOnly(w: Wiring, t: Table) {
    && w.otherSide == 0
    && (w.stdinRedirected ==> IsFile(t, w.stdinFd))
    && (w.stdoutRedirected ==> IsFile(t, w.stdoutFd))
  }

  /** The commands so far have their files, and nothing is piped yet. */
  ghost predicate Opened(line: nat, items: seq<Item>, ws: seq<Wiring>, canOpen: (string, bool) -> bool, std: Table,
        t: Table, next: int) {
    && |ws| == |items| && AllComplete(items)
    && Unpiped(line, ws, t, next)
    && Separate(ws) && SameStandard(std, t) && HoldsFiles(items, ws, canOpen, t, 0, 0)
  }

  lemma NamedUnpiped(line: nat, ws: seq<Wiring>, canOpen: (string, bool) -> bool, t: Table, next: int,
        r: Redirections, w: Wiring, t': Table, next': int)
    requires Unpiped(line, ws, t, next) && Named(t, next, canOpen, r, w, t', next')
    requires forall fd :: fd in t' ==> 0 <= fd < next'
    ensures Unpiped(line, ws + [w], t', next')
  {
    assert FilesOnly(w, t');
  }

  lemma NamedSeparate(line: nat, ws: seq<Wiring>, canOpen: (string, bool) -> bool, t: Table, next: int,
        r: Redirections, w: Wiring, t': Table, next': int)
    requires Unpiped(line, ws, t, next) && Separate(ws) && Named(t, next, canOpen, r, w, t', next')
    ensures Separate(ws + [w])
  {
    forall j | 0 <= j < |ws| ensures Apart(ws[j], w) && Apart(w, ws[j]) {
      assert OwnApart(ws[j]);
    }
  }

  lemma CommandOpened(line: nat, items: seq<Item>, ws: seq<Wiring>, canOpen: (string, bool) -> bool, std: Table,
        t: Table, next: int, words: seq<string>, w: Wiring, t': Table, next': int)
    requires Opened(line, items, ws, canOpen, std, t, next) && Complete(words)
    requires Named(t, next, canOpen, Redirected(words), w, t', next') && forall fd :: fd in t' ==> 0 <= fd < next'
    ensures Opened(line, items + [Words(words)], ws + [w], canOpen, std, t', next')
  {
    NamedUnpiped(line, ws, canOpen, t, next, Redirected(words), w, t', next');
    NamedSeparate(line, ws, canOpen, t, next, Redirected(words), w, t', next');
    var items', ws' := items + [Words(words)], ws + [w];
    forall j | 0 <= j < |items'| && items'[j].Words? ensures FilesShown(items', ws'[j], canOpen, t', j, 0) {
      if j < |items| {
        assert FilesShown(items, ws[j], canOpen, t, j, 0);
      }
    }
  }

  lemma OperatorOpened(line: nat, items: seq<Item>, ws: seq<Wiring>, canOpen: (string, bool) -> bool, std: Table,
        t: Table, next: int, op: OpType)
    requires Opened(line, items, ws, canOpen, std, t, next)
    ensures Opened(line, items + [Oper(op)], ws + [UNUSED], canOpen, std, t, next)
  {
    var items', ws' := items + [Oper(op)], ws + [UNUSED];
    forall j | 0 <= j < |items'| && items'[j].Words? ensures FilesShown(items', ws'[j], canOpen, t, j, 0) {
      assert FilesShown(items, ws[j], canOpen, t, j, 0);
    }
  }

  lemma OpenedLaid(line: nat, items: seq<Item>, ws: seq<Wiring>, canOpen: (string, bool) -> bool, std: Table,
        t: Table, next: int)
    requires Opened(line, items, ws, canOpen, std, t, next)
    ensures Laid(line, items, ws, canOpen, std, t, 0, 0)
  {
    UnpipedWired(line, items, ws, t, next);
  }

  lemma UnpipedWired(line: nat, items: seq<Item>, ws: seq<Wiring>, t: Table, next: int)
    requires |ws| == |items| && Unpiped(line, ws, t, next)
    ensures Wired(line, items, ws, t, 0, 0)
  {
  }

  lemma {:induction false} GroupStarts(items: seq<Item>, current: seq<string>, tokens: seq<string>)
    ensures items <= Group(items, current, tokens)
    ensures tokens != [] && IsOperator(tokens[0]) ==>
      Extended(items, current, OpOf(tokens[0])) <= Group(items, current, tokens)
    decreases |tokens|
  {
    if tokens != [] {
      if IsOperator(tokens[0]) {
        GroupStarts(Extended(items, current, OpOf(tokens[0])), [], tokens[1..]);
      } else {
        GroupStarts(items, current + [tokens[0]], tokens[1..]);
      }
    }
  }

  /** A line that does not end in `|` has a command on both sides of every `|`. */
  lemma PipesInside(tokens: seq<string>, e: nat)
    requires tokens != [] && tokens[|tokens| - 1] != "|"
    requires e < |Items(tokens)| && Items(tokens)[e] == Oper(Pipeline)
    ensures IsPipe(Items(tokens), e) && Items(tokens)[e - 1].Words? && Items(tokens)[e + 1].Words?
  {
    ItemsKeep(tokens);
    var items := Items(tokens);
    if e == |items| - 1 {
      assert false;
    }
  }

  const UNUSED := Wiring(-1, -1, 0, false, false)

  method AddCommand(es: seq<Element>, words: seq<string>, process: Process, ghost items: seq<Item>,
        ghost ws: seq<Wiring>, ghost std: Table)
      returns (res: seq<Element>, ghost ws': seq<Wiring>)
    requires process.Valid() && process.NoPipes() && Complete(words)
    requires Opened(process.line, items, ws, process.canOpen, std, process.table, process.next)
    requires Stands(es, items, ws)
    modifies process`table, process`next
    ensures process.Valid() && process.NoPipes()
    ensures |res| == |es| + 1 && res[..|es|] == es && fresh(Objects(res) - Objects(es))
    ensures Opened(process.line, items + [Words(words)], ws', process.canOpen, std, process.table, process.next)
    ensures Stands(res, items + [Words(words)], ws')
  {
    ghost var t, next := process.table, process.next;
    var item := new CommandItem(words, process);
    res := es + [Command(item)];
    ws' := ws + [item.Wires()];
    CommandOpened(process.line, items, ws, process.canOpen, std, t, next, words, item.Wires(), process.table,
      process.next);
  }

  lemma AddOperator(es: seq<Element>, items: seq<Item>, ws: seq<Wiring>, op: OpType)
    requires AllComplete(items) && Stands(es, items, ws)
    ensures AllComplete(items + [Oper(op)]) && Stands(es + [Operator(op)], items + [Oper(op)], ws + [UNUSED])
    ensures Objects(es + [Operator(op)]) == Objects(es)
  {
    var es' := es + [Operator(op)];
    forall o | o in Objects(es') ensures o in Objects(es) {
      var i :| 0 <= i < |es'| && es'[i].Command? && es'[i].item == o;
      assert es'[i] == es[i];
    }
    forall o | o in Objects(es) ensures o in Objects(es') {
      var i :| 0 <= i < |es| && es[i].Command? && es[i].item == o;
      assert es'[i] == es[i];
    }
  }

  lemma GroupSteps(items: seq<Item>, current: seq<string>, tokens: seq<string>, i: nat)
    requires i < |tokens|
    ensures Group(items, current, tokens[i..])
         == if IsOperator(tokens[i]) then Group(Extended(items, current, OpOf(tokens[i])), [], tokens[i + 1..])
            else Group(items, current + [tokens[i]], tokens[i + 1..])
    ensures IsOperator(tokens[i]) ==> Extended(items, current, OpOf(tokens[i])) <= Group(items, current, tokens[i..])
  {
    GroupStarts(items, current, tokens[i..]);
    assert tokens[i..][1..] == tokens[i + 1..];
  }

  /** Commands and operators in turn, each command with its files opened. */
  method BuildElements(tokens: seq<string>, process: Process) returns (es: seq<Element>, ghost ws: seq<Wiring>)
    requires process.Valid() && process.NoPipes() && AllComplete(Items(tokens))
    modifies process`table, process`next
    ensures process.Valid() && fresh(Objects(es)) && Stands(es, Items(tokens), ws)
    ensures Opened(process.line, Items(tokens), ws, process.canOpen, old(process.table), process.table, process.next)
  {
    es, ws := [], [];
    ghost var std := process.table;
    ghost var items: seq<Item> := [];
    var currentCommand := [];
    for i := 0 to |tokens|
      invariant process.Valid() && process.NoPipes() && fresh(Objects(es))
      invariant Group(items, currentCommand, tokens[i..]) == Items(tokens) && items <= Items(tokens)
      invariant Opened(process.line, items, ws, process.canOpen, std, process.table, process.next)
      invariant Stands(es, items, ws)
    {
      GroupSteps(items, currentCommand, tokens, i);
      if !IsOperator(tokens[i]) {
        currentCommand := currentCommand + [tokens[i]];
      } else {
        ghost var longer := Extended(items, currentCommand, OpOf(tokens[i]));
        assert longer[|items|] == Words(currentCommand);
        es, ws := AddCommand(es, currentCommand, process, items, ws, std);
        AddOperator(es, items + [Words(currentCommand)], ws, OpOf(tokens[i]));
        OperatorOpened(process.line, items + [Words(currentCommand)], ws, process.canOpen, std, process.table,
          process.next, OpOf(tokens[i]));
        es, ws := es + [Operator(OpOf(tokens[i]))], ws + [UNUSED];
        assert longer == items + [Words(currentCommand)] + [Oper(OpOf(tokens[i]))];
        items, currentCommand := longer, [];
      }
    }
    if |currentCommand| > 0 {
      assert Items(tokens)[|items|] == Words(currentCommand);
      es, ws := AddCommand(es, currentCommand, process, items, ws, std);
    }
  }

  /** Ties the commands on the two sides of the `|` at place e to its pipe. */
  method Tie(es: seq<Element>, e: nat, r: int, w: int, ghost items: seq<Item>, ghost ws: seq<Wiring>)
        returns (ghost ws': seq<Wiring>)
    requires AllComplete(items) && Stands(es, items, ws) && IsPipe(items, e) && items[e - 1].Words?
      && items[e + 1].Words?
    modifies Objects(es)
    ensures ws' == Rewired(ws, e, r, w) && Stands(es, items, ws')
  {
    var next, prev := es[e + 1].item, es[e - 1].item;
    assert next in Objects(es) && prev in Objects(es) && next != prev;
    next.RedirectStdin(r, w);
    prev.RedirectStdout(w, r);
    ws' := Rewired(ws, e, r, w);
  }

  method TiePipe(es: seq<Element>, e: nat, process: Process, ghost items: seq<Item>,
      ghost ws: seq<Wiring>, ghost std: Table) returns (ghost ws': seq<Wiring>)
    requires process.Valid() && Alternates(items) && AllComplete(items) && Stands(es, items, ws)
    requires IsPipe(items, e) && items[e - 1].Words? && items[e + 1].Words?
    requires Unused(ws, process.table, process.next)
    requires Laid(process.line, items, ws, process.canOpen, std, process.table, 0, e)
    modifies process`table, process`next, Objects(es)
    ensures process.Valid() && Stands(es, items, ws')
    ensures Unused(ws', process.table, process.next)
    ensures Laid(process.line, items, ws', process.canOpen, std, process.table, 0, e + 1)
  {
    PipeKeepsLaid(process.line, items, ws, process.canOpen, std, process.table, e, process.next);
    PipeKeepsUnused(process.line, ws, process.table, e, process.next);
    ghost var t, next := process.table, process.next;
    var r, w := process.Pipe(e);
    assert process.table == Piped(process.line, t, e, r, w) && r == next && w == next + 1;
    ws' := Tie(es, e, r, w, items, ws);
  }

  lemma NoneClosed(line: nat, items: seq<Item>, closed: multiset<Target>)
    requires forall x :: x in closed ==> Earlier(x, line)
    ensures ClosedOnce(line, items, closed, 0)
  {
    forall k | IsPipe(items, k) ensures EndClosed(line, closed, k, 0) {
      assert ReadEnd(line, k) !in closed && WriteEnd(line, k) !in closed;
    }
  }

  /** The whole sequence: the elements, and a pipe for every `|`. */
  method BuildCommandSequence(tokens: seq<string>, process: Process) returns (es: seq<Element>, ghost ws: seq<Wiring>)
    requires process.Valid() && AllComplete(Items(tokens))
    requires tokens != [] && tokens[|tokens| - 1] != "|"
    modifies process`table, process`next, process`line
    ensures process.Valid() && process.line == old(process.line) + 1
    ensures fresh(Objects(es)) && Stands(es, Items(tokens), ws)
    ensures Laid(process.line, Items(tokens), ws, process.canOpen, old(process.table), process.table, 0,
      |Items(tokens)|)
    ensures ClosedOnce(process.line, Items(tokens), process.closed, 0)
  {
    process.BeginLine();
    ghost var line := process.line;
    NoneClosed(line, Items(tokens), process.closed);
    ghost var items, std := Items(tokens), process.table;
    es, ws := BuildElements(tokens, process);
    ItemsKeep(tokens);
    OpenedLaid(process.line, items, ws, process.canOpen, std, process.table, process.next);
    for e := 0 to |es|
      invariant process.Valid() && process.line == line && fresh(Objects(es)) && Stands(es, items, ws)
      invariant Unused(ws, process.table, process.next)
      invariant Laid(process.line, items, ws, process.canOpen, std, process.table, 0, e)
    {
      if es[e] == Operator(Pipeline) {
        PipesInside(tokens, e);
        ws := TiePipe(es, e, process, items, ws, std);
      } else {
        NoPipeKeepsLaid(process.line, items, ws, process.canOpen, std, process.table, e);
      }
    }
  }

  ghost function Codes(outcomes: nat -> Status): nat -> int {
    (n: nat) => ExitCode(outcomes(n))
  }

  /** The child of a command, forked by a shell with these descriptors. */
  ghost function Forked(words: seq<string>, t: Table, w: Wiring): Child
    requires Complete(words)
  {
    Child(Redirected(words).args, ChildTable(t, w))
  }

  method RunItem(es: seq<Element>, i: nat, process: Process, outcome: Status, ghost items: seq<Item>,
        ghost ws: seq<Wiring>)
      returns (exitCode: int)
    requires AllComplete(items) && Stands(es, items, ws) && i < |items| && items[i].Words?
    modifies process`table, process`closed, process`children, Objects(es)
    ensures exitCode == ExitCode(outcome) && Stands(es, items, ws)
    ensures process.table == ParentTable(old(process.table), ws[i])
    ensures process.closed == old(process.closed) + ParentCloses(old(process.table), ws[i])
    ensures process.children == old(process.children) + [Forked(items[i].words, old(process.table), ws[i])]
  {
    var cmd := es[i].item;
    assert cmd in Objects(es) && cmd.args == Redirected(items[i].words).args;
    cmd.Run(process, outcome);
    exitCode := cmd.GetExitCode();
  }

  /** Runs the command at place i. */
  method RunCommand(es: seq<Element>, i: nat, process: Process, outcome: Status, ghost items: seq<Item>,
        ghost ws: seq<Wiring>)
      returns (exitCode: int)
    requires process.Valid() && AllComplete(items) && Stands(es, items, ws) && i < |items| && items[i].Words?
    modifies process`table, process`closed, process`children, Objects(es)
    ensures process.Valid() && exitCode == ExitCode(outcome) && Stands(es, items, ws)
    ensures process.table == ParentTable(old(process.table), ws[i])
    ensures process.closed == old(process.closed) + ParentCloses(old(process.table), ws[i])
    ensures process.children == old(process.children) + [Forked(items[i].words, old(process.table), ws[i])]
  {
    ParentOk(process.table, process.closed, process.next, process.line + 1, ws[i]);
    exitCode := RunItem(es, i, process, outcome, items, ws);
  }

  lemma CommandRan(line: nat, items: seq<Item>, ws: seq<Wiring>, canOpen: (string, bool) -> bool, std: Table, t: Table,
        closed: multiset<Target>, i: nat)
    requires AllComplete(items) && Alternates(items) && i < |items| == |ws| && items[i].Words?
    requires Laid(line, items, ws, canOpen, std, t, i, |items|)
    requires ClosedOnce(line, items, closed, i) && -1 !in t
    ensures ChildRight(line, items, canOpen, std, Forked(items[i].words, t, ws[i]), i)
    ensures Laid(line, items, ws, canOpen, std, ParentTable(t, ws[i]), i + 1, |items|)
    ensures ClosedOnce(line, items, closed + ParentCloses(t, ws[i]), i + 1)
  {
    WiredReady(line, items, ws, t, i);
    ChildReads(line, items, ws[i], t, i);
    ChildFiles(line, items, ws, canOpen, std, t, i);
    RunKeepsLaid(line, items, ws, canOpen, std, t, i);
    RunClosesOnce(line, items, ws[i], t, closed, i);
  }

  /** A child runs the words of its command and has its pipes and its files right. */
  ghost predicate ChildRight(line: nat, items: seq<Item>, canOpen: (string, bool) -> bool, std: Table, child: Child,
        j: nat)
    requires AllComplete(items)
  {
    && j < |items| && items[j].Words? && child.args == Redirected(items[j].words).args
    && ChildOk(line, items, child.table, j) && FilesOk(items, canOpen, std, child.table, j)
  }

  /** One child was forked for each place in `ran`, in that order, and each has its pipes and files right. */
  ghost predicate ChildrenOk(line: nat, items: seq<Item>, canOpen: (string, bool) -> bool, std: Table, ran: seq<nat>,
        before: seq<Child>, after: seq<Child>)
    requires AllComplete(items)
  {
    && |after| == |before| + |ran| && before <= after
    && forall n :: 0 <= n < |ran| ==> ChildRight(line, items, canOpen, std, after[|before| + n], ran[n])
  }

  lemma ChildrenMore(line: nat, items: seq<Item>, canOpen: (string, bool) -> bool, std: Table, ran: seq<nat>,
        before: seq<Child>, after: seq<Child>, child: Child, i: nat)
    requires AllComplete(items) && ChildrenOk(line, items, canOpen, std, ran, before, after)
    requires ChildRight(line, items, canOpen, std, child, i)
    ensures ChildrenOk(line, items, canOpen, std, ran + [i], before, after + [child])
  {
  }

  /** The shell's pipe ends after the commands before place `done` have run: open are exactly those of the others,
      and each end of those that ran has been closed once. */
  ghost predicate PipesOk(line: nat, items: seq<Item>, ws: seq<Wiring>, t: Table, closed: multiset<Target>, done: nat) {
    EndsOpen(line, items, ws, t, done, |items|) && ClosedOnce(line, items, closed, done)
  }

  /** The commands that the specification executes have run: each child had its pipes right, and the ends of those
      commands, and no others, have been closed. */
  ghost predicate HasRun(line: nat, items: seq<Item>, ws: seq<Wiring>, canOpen: (string, bool) -> bool, std: Table,
        codes: nat -> int, ran: seq<nat>, before: seq<Child>, after: seq<Child>, t: Table, closed: multiset<Target>)
    requires AllComplete(items)
  {
    && ran == Executed(items, codes)
    && ChildrenOk(line, items, canOpen, std, ran, before, after)
    && PipesOk(line, items, ws, t, closed, Stop(items, codes))
    && Gone(items, ws, t, Stop(items, codes))
  }

  /** The commands before place i have run as specified, the last of them with this exit code. */
  ghost predicate RunSoFar(line: nat, items: seq<Item>, ws: seq<Wiring>, canOpen: (string, bool) -> bool, std: Table,
        codes: nat -> int, ran: seq<nat>, before: seq<Child>, after: seq<Child>, t: Table, closed: multiset<Target>,
        i: nat, code: int)
    requires AllComplete(items)
  {
    && i <= |items| && Halt(items, codes, i, code) == Halt(items, codes, 0, -1)
    && ran == Places(items, 0, i) && ChildrenOk(line, items, canOpen, std, ran, before, after)
    && Laid(line, items, ws, canOpen, std, t, i, |items|) && ClosedOnce(line, items, closed, i)
  }

  lemma HasRunHere(line: nat, items: seq<Item>, ws: seq<Wiring>, canOpen: (string, bool) -> bool, std: Table,
        codes: nat -> int, ran: seq<nat>, before: seq<Child>, after: seq<Child>, t: Table, closed: multiset<Target>,
        i: nat, code: int)
    requires AllComplete(items)
    requires RunSoFar(line, items, ws, canOpen, std, codes, ran, before, after, t, closed, i, code)
    requires i == |items| || (items[i].Oper? && StopsAt(items[i].op, code))
    ensures HasRun(line, items, ws, canOpen, std, codes, ran, before, after, t, closed)
  {
  }

  lemma RunsCommand(line: nat, items: seq<Item>, ws: seq<Wiring>, canOpen: (string, bool) -> bool, std: Table,
        codes: nat -> int, ran: seq<nat>, before: seq<Child>, after: seq<Child>, t: Table, closed: multiset<Target>,
        i: nat, code: int)
    requires AllComplete(items) && Alternates(items)
    requires RunSoFar(line, items, ws, canOpen, std, codes, ran, before, after, t, closed, i, code)
    requires i < |items| == |ws| && items[i].Words? && -1 !in t
    ensures RunSoFar(line, items, ws, canOpen, std, codes, ran + [i], before,
              after + [Forked(items[i].words, t, ws[i])], ParentTable(t, ws[i]), closed + ParentCloses(t, ws[i]), i + 1,
              codes(i))
  {
    PlacesMore(items, i);
    CommandRan(line, items, ws, canOpen, std, t, closed, i);
    ChildrenMore(line, items, canOpen, std, ran, before, after, Forked(items[i].words, t, ws[i]), i);
  }

  lemma RunsOperator(line: nat, items: seq<Item>, ws: seq<Wiring>, canOpen: (string, bool) -> bool, std: Table,
        codes: nat -> int, ran: seq<nat>, before: seq<Child>, after: seq<Child>, t: Table, closed: multiset<Target>,
        i: nat, code: int)
    requires AllComplete(items) && Alternates(items)
    requires RunSoFar(line, items, ws, canOpen, std, codes, ran, before, after, t, closed, i, code)
    requires i < |items| && items[i].Oper? && !StopsAt(items[i].op, code)
    ensures RunSoFar(line, items, ws, canOpen, std, codes, ran, before, after, t, closed, i + 1, code)
  {
    PlacesMore(items, i);
    OperatorKeepsLaid(line, items, ws, canOpen, std, t, i);
    OperatorClosesNone(line, items, closed, i);
  }

  lemma PlacesMore(items: seq<Item>, i: nat)
    requires i < |items|
    ensures Places(items, 0, i + 1) == if items[i].Words? then Places(items, 0, i) + [i] else Places(items, 0, i)
  {
    PlacesSplit(items, 0, i, i + 1);
    assert Places(items, i + 1, i + 1) == [];
  }

  /** Runs the sequence; the command at place n, if run, ends with outcomes(n). The places of the commands that ran
      are `ran`. */
  method RunSequence(es: seq<Element>, process: Process, outcomes: nat -> Status, ghost items: seq<Item>,
        ghost ws: seq<Wiring>, ghost std: Table)
      returns (ghost ran: seq<nat>)
    requires process.Valid() && Alternates(items) && AllComplete(items) && Stands(es, items, ws)
    requires Laid(process.line, items, ws, process.canOpen, std, process.table, 0, |items|)
    requires ClosedOnce(process.line, items, process.closed, 0)
    modifies process`table, process`closed, process`children, Objects(es)
    ensures process.Valid()
    ensures HasRun(process.line, items, ws, process.canOpen, std, Codes(outcomes), ran, old(process.children),
      process.children, process.table, process.closed)
  {
    ran := [];
    var exitCode := -1;
    var i := 0;
    ghost var codes := Codes(outcomes);
    ghost var base := process.children;
    while i < |es|
      invariant process.Valid() && Stands(es, items, ws)
      invariant RunSoFar(process.line, items, ws, process.canOpen, std, codes, ran, base, process.children,
                  process.table, process.closed, i, exitCode)
    {
      ghost var forked, t, closed := process.children, process.table, process.closed;
      if es[i].Command? {
        assert items[i].Words?;
        RunsCommand(process.line, items, ws, process.canOpen, std, codes, ran, base, forked, t, closed, i, exitCode);
        exitCode := RunCommand(es, i, process, outcomes(i), items, ws);
        assert exitCode == codes(i) && process.table == ParentTable(t, ws[i]);
        ran := ran + [i];
      } else {
        var nextOp := es[i].op;
        assert items[i] == Oper(nextOp);
        if (nextOp == Or && exitCode == 0) || (nextOp == And && exitCode != 0) {
          break;
        }
        RunsOperator(process.line, items, ws, process.canOpen, std, codes, ran, base, forked, t, closed, i, exitCode);
      }
      i := i + 1;
    }
    HasRunHere(process.line, items, ws, process.canOpen, std, codes, ran, base, process.children, process.table,
      process.closed, i, exitCode);
  }

  /** A forked copy of the shell runs the sequence; the shell itself does nothing more. */
  method RunSequenceInBackground(es: seq<Element>, process: Process, outcomes: nat -> Status, ghost items: seq<Item>,
      ghost ws: seq<Wiring>, ghost std: Table) returns (runner: Process, ghost ran: seq<nat>)
    requires process.Valid() && Alternates(items) && AllComplete(items) && Stands(es, items, ws)
    requires Laid(process.line, items, ws, process.canOpen, std, process.table, 0, |items|)
    requires ClosedOnce(process.line, items, process.closed, 0)
    modifies Objects(es)
    ensures fresh(runner)
    ensures HasRun(process.line, items, ws, process.canOpen, std, Codes(outcomes), ran, [], runner.children,
      runner.table, runner.closed)
  {
    runner := new Process.Forked(process);
    ran := RunSequence(es, runner, outcomes, items, ws, std);
  }

  /** The tokens name a file after every redirection and do not end in `|`. */
  predicate Runnable(tokens: seq<string>) {
    AllComplete(Items(tokens)) && (tokens != [] ==> tokens[|tokens| - 1] != "|")
  }

  predicate AsksBackground(tokens: seq<string>) {
    tokens != [] && tokens[|tokens| - 1] == "&"
  }

  lemma BackgroundIsLast(tokens: seq<string>)
    requires tokens != []
    ensures var items := Items(tokens);
            items != [] && (AsksBackground(tokens) <==> items[|items| - 1] == Oper(Background))
  {
    ItemsKeep(tokens);
    var items := Items(tokens);
    var n := |items| - 1;
    assert items != [];
    assert tokens == Ungroup(items[..n]) + Text(items[n]);
    if items[n].Words? {
      assert tokens[|tokens| - 1] == items[n].words[|items[n].words| - 1];
    }
  }

  /** What has become of the line: `runner` ran it, and if that is a copy, the shell keeps every end of every pipe. */
  ghost predicate Settled(line: nat, items: seq<Item>, ws: seq<Wiring>, background: bool, t: Table,
        closed: multiset<Target>,
      before: seq<Child>, after: seq<Child>)
  {
    background ==> after == before && PipesOk(line, items, ws, t, closed, 0)
  }

  /** By the shell, or by a copy of it if the sequence ends in `&`. */
  method RunOperands(operands: seq<Element>, process: Process, outcomes: nat -> Status, ghost items: seq<Item>,
      ghost ws: seq<Wiring>, ghost std: Table) returns (runner: Process, ghost ran: seq<nat>)
    requires process.Valid() && Alternates(items) && AllComplete(items) && Stands(operands, items, ws) && items != []
    requires Laid(process.line, items, ws, process.canOpen, std, process.table, 0, |items|)
    requires ClosedOnce(process.line, items, process.closed, 0)
    modifies process`table, process`closed, process`children, Objects(operands)
    ensures process.Valid()
    ensures var background := items[|items| - 1] == Oper(Background);
            && (if background then fresh(runner) else runner == process)
            && HasRun(process.line, items, ws, process.canOpen, std, Codes(outcomes), ran,
                      if background then [] else old(process.children), runner.children, runner.table, runner.closed)
            && Settled(process.line, items, ws, background, process.table, process.closed, old(process.children),
              process.children)
  {
    if operands[|operands| - 1] == Operator(Background) {
      runner, ran := RunSequenceInBackground(operands, process, outcomes, items, ws, std);
    } else {
      runner := process;
      ran := RunSequence(operands, process, outcomes, items, ws, std);
    }
  }

  /** The sequence of a line's tokens, built and run. */
  method ExecuteTokens(tokens: seq<string>, process: Process, outcomes: nat -> Status)
      returns (runner: Process, ghost ran: seq<nat>, ghost ws: seq<Wiring>)
    requires process.Valid() && Runnable(tokens) && tokens != []
    modifies process
    ensures process.Valid() && if AsksBackground(tokens) then fresh(runner) else runner == process
    ensures HasRun(process.line, Items(tokens), ws, process.canOpen, old(process.table), Codes(outcomes), ran,
      if AsksBackground(tokens) then [] else old(process.children), runner.children, runner.table, runner.closed)
    ensures Settled(process.line, Items(tokens), ws, AsksBackground(tokens), process.table, process.closed,
      old(process.children), process.children)
  {
    ItemsKeep(tokens);
    BackgroundIsLast(tokens);
    var operands;
    ghost var std := process.table;
    operands, ws := BuildCommandSequence(tokens, process);
    runner, ran := RunOperands(operands, process, outcomes, Items(tokens), ws, std);
  }

  /** A line read, split, built and run: by the shell, or by a copy of it if the line asks for the background. The
      commands that ran read and write exactly their pipes. Whoever ran them has open exactly the ends of those that
      did not run; a shell that left the line to a copy keeps every end of every pipe open. */
  method ExecuteLine(interpreter: Tokenizer.CmdInterpreter, process: Process, outcomes: nat -> Status, cmdLine: string)
      returns (runner: Process, ghost ran: seq<nat>, ghost ws: seq<Wiring>)
    requires process.Valid() && Runnable(Tokenizer.Tokens(cmdLine))
    modifies interpreter, process
    ensures process.Valid()
    ensures var tokens := Tokenizer.Tokens(cmdLine);
            tokens != [] ==>
              && (if AsksBackground(tokens) then fresh(runner) else runner == process)
              && HasRun(process.line, Items(tokens), ws, process.canOpen, old(process.table), Codes(outcomes), ran,
                        if AsksBackground(tokens) then [] else old(process.children),
                        runner.children, runner.table, runner.closed)
              && Settled(process.line, Items(tokens), ws, AsksBackground(tokens), process.table, process.closed,
                         old(process.children), process.children)
    ensures Tokenizer.Tokens(cmdLine) == [] ==> unchanged(process)
  {
    ran, ws := [], [];
    runner := process;
    var commandsParsed := interpreter.TokenizeLine(cmdLine);
    if |commandsParsed| == 0 {
      return;
    }
    runner, ran, ws := ExecuteTokens(commandsParsed, process, outcomes);
  }

  // Lines as a user writes them.

  /** How a command that ends with 0 or by a signal counts, and how any other. */
  predicate Fails(outcome: Status) {
    outcome.Exited? && outcome.code != 0
  }

  lemma JoinedRunnable(x: seq<string>, sign: string, y: seq<string>)
    requires PlainWords(x) && PlainWords(y) && y != [] && Complete(x) && Complete(y)
    requires sign == "&&" || sign == "||" || sign == "|" || sign == "&"
    ensures Runnable(x + [sign] + y) && !AsksBackground(x + [sign] + y)
  {
    var tokens := x + [sign] + y;
    Joined(x, OpOf(sign), y);
    assert Sign(OpOf(sign)) == sign;
    assert tokens[|tokens| - 1] == y[|y| - 1];
  }

  lemma JoinedLine(x: seq<string>, sign: string, y: seq<string>, outcomes: nat -> Status)
    requires PlainWords(x) && PlainWords(y) && y != []
    requires sign == "&&" || sign == "||" || sign == "|" || sign == "&"
    ensures Executed(Items(x + [sign] + y), Codes(outcomes))
         == if (sign == "&&" && Fails(outcomes(0))) || (sign == "||" && !Fails(outcomes(0))) then [0] else [0, 2]
  {
    var codes := Codes(outcomes);
    assert codes(0) == 0 <==> !Fails(outcomes(0));
    JoinedRuns(x, y, codes);
  }

  lemma TwoChildren(line: nat, items: seq<Item>, canOpen: (string, bool) -> bool, std: Table, ran: seq<nat>,
        before: seq<Child>, after: seq<Child>)
    requires AllComplete(items) && ChildrenOk(line, items, canOpen, std, ran, before, after)
    requires |items| == 3 && items[0].Words? && items[2].Words? && (ran == [0] || ran == [0, 2])
    ensures |after| == |before| + |ran| && after[|before|].args == Redirected(items[0].words).args
    ensures |ran| > 1 ==> after[|before| + 1].args == Redirected(items[2].words).args
  {
    assert ChildRight(line, items, canOpen, std, after[|before| + 0], ran[0]);
    assert |ran| > 1 ==> ChildRight(line, items, canOpen, std, after[|before| + 1], ran[1]);
  }

  /** What a run of such a line has forked. */
  ghost predicate JoinedRun(x: seq<string>, sign: string, y: seq<string>, outcome: Status, ran: seq<nat>,
        before: seq<Child>, after: seq<Child>)
    requires Complete(x) && Complete(y)
  {
    && ran == (if (sign == "&&" && Fails(outcome)) || (sign == "||" && !Fails(outcome)) then [0] else [0, 2])
    && |after| == |before| + |ran| && after[|before|].args == Redirected(x).args
    && (|ran| > 1 ==> after[|before| + 1].args == Redirected(y).args)
  }

  lemma JoinedHasRun(line: nat, x: seq<string>, sign: string, y: seq<string>, ws: seq<Wiring>,
        canOpen: (string, bool) -> bool, std: Table, outcomes: nat -> Status, ran: seq<nat>, before: seq<Child>,
        after: seq<Child>, t: Table, closed: multiset<Target>)
    requires PlainWords(x) && PlainWords(y) && y != [] && Complete(x) && Complete(y)
    requires sign == "&&" || sign == "||" || sign == "|" || sign == "&"
    requires AllComplete(Items(x + [sign] + y))
    requires HasRun(line, Items(x + [sign] + y), ws, canOpen, std, Codes(outcomes), ran, before, after, t, closed)
    ensures JoinedRun(x, sign, y, outcomes(0), ran, before, after)
  {
    JoinedLine(x, sign, y, outcomes);
    Joined(x, OpOf(sign), y);
    assert Sign(OpOf(sign)) == sign;
    TwoChildren(line, Items(x + [sign] + y), canOpen, std, ran, before, after);
  }

  /** Two commands on a line. After `&&` the second is run exactly if the first does not fail, after `||` exactly if it
      does, and otherwise always. */
  method ExecuteJoined(interpreter: Tokenizer.CmdInterpreter, process: Process, outcomes: nat -> Status,
        x: seq<string>, sign: string, y: seq<string>) returns (ghost ran: seq<nat>)
    requires process.Valid() && PlainWords(x) && PlainWords(y) && y != [] && Complete(x) && Complete(y)
    requires sign == "&&" || sign == "||" || sign == "|" || sign == "&"
    requires Tokenizer.AllTokens(x + [sign] + y)
    modifies interpreter, process
    ensures process.Valid()
    ensures JoinedRun(x, sign, y, outcomes(0), ran, old(process.children), process.children)
  {
    Tokenizer.JoinSplits(x + [sign] + y);
    JoinedRunnable(x, sign, y);
    ghost var std, before := process.table, process.children;
    var runner;
    ghost var ws: seq<Wiring>;
    runner, ran, ws := ExecuteLine(interpreter, process, outcomes, Tokenizer.Join(x + [sign] + y));
    JoinedHasRun(process.line, x, sign, y, ws, process.canOpen, std, outcomes, ran, before, process.children,
      process.table, process.closed);
  }

  lemma FilesLine(words: seq<string>, input: string, output: string)
    requires Unredirected(words) && PlainWords(words) && PlainWords([input, output])
    ensures var tokens := words + ["<", input] + [">", output];
            && Complete(tokens) && Runnable(tokens) && !AsksBackground(tokens) && Items(tokens) == [Words(tokens)]
            && Redirected(tokens) == Redirections(words, Some(input), Some(output))
  {
    var tokens := words + ["<", input] + [">", output];
    ArgumentsOnly(words);
    LastNamed(words, input, []);
    assert words + ["<", input] + [] == words + ["<", input] && words + [] == words;
    LastNamed(words + ["<", input], output, []);
    assert tokens + [] == tokens;
    assert [input, output][0] == input && [input, output][1] == output;
    JoinedItems([], tokens);
  }

  lemma OneCommand(words: seq<string>, codes: nat -> int)
    ensures Executed([Words(words)], codes) == [0]
  {
    var items := [Words(words)];
    assert Halt(items, codes, 0, -1) == Halt(items, codes, 1, codes(0)) == (1, codes(0));
    assert Places(items, 0, 1) == [0] + Places(items, 1, 1);
  }

  /** A command with an input and an output file. It is forked once, with each file under its own standard descriptor
      if it could be opened and with nothing there if not, and with the shell's own errors. */
  method ExecuteWithFiles(interpreter: Tokenizer.CmdInterpreter, process: Process, outcomes: nat -> Status,
        words: seq<string>, input: string, output: string)
    requires process.Valid() && Unredirected(words) && PlainWords(words) && PlainWords([input, output])
    requires Tokenizer.AllTokens(words + ["<", input] + [">", output])
    modifies interpreter, process
    ensures process.Valid() && |process.children| == |old(process.children)| + 1
    ensures var child := process.children[|old(process.children)|];
            && child.args == words
            && (if process.canOpen(input, false) then 0 in child.table && child.table[0] == Plain(input)
                else 0 !in child.table)
            && (if process.canOpen(output, true) then 1 in child.table && child.table[1] == Plain(output)
                else 1 !in child.table)
            && SameAt(old(process.table), child.table, 2)
  {
    ghost var tokens := words + ["<", input] + [">", output];
    Tokenizer.JoinSplits(tokens);
    FilesLine(words, input, output);
    OneCommand(tokens, Codes(outcomes));
    var runner;
    ghost var ran: seq<nat>, ws: seq<Wiring>;
    var line := Tokenizer.Join(words + ["<", input] + [">", output]);
    runner, ran, ws := ExecuteLine(interpreter, process, outcomes, line);
    assert ran[0] == 0;
  }
}
