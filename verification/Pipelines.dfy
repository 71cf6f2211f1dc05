/** The pipes of a command line: which descriptors the shell and its children hold while the line runs. */
module Pipelines {
  import opened Commands

  /** What a descriptor stands for; a pipe is named by the line it was made for and
      the place of its `|` in that line. */
  datatype Target = Plain(name: string) | ReadEnd(line: nat, pipe: int) | WriteEnd(line: nat, pipe: int)

  type Table = map<int, Target>

  function Closed(t: Table, fd: int): Table {
    t - {fd}
  }

  function Duplicated(t: Table, from: int, to: int): Table {
    if from in t then t[to := t[from]] else t
  }

  /** The descriptor fields of a command. */
  datatype Wiring = Wiring(stdinFd: int, stdoutFd: int, otherSide: int, stdinRedirected: bool, stdoutRedirected: bool)

  /** A descriptor moved to a standard one. */
  function Moved(t: Table, fd: int, std: int): (r: Table)
    ensures forall f :: f in r <==> f != fd && if f == std then fd in t else f in t
    ensures forall f :: f in r ==> r[f] == if f == std then t[fd] else t[f]
  {
    Closed(Duplicated(Closed(t, std), fd, std), fd)
  }

  function OtherClosed(t: Table, other: int): Table {
    if other != 0 then Closed(t, other) else t
  }

  /** The child's descriptors when it runs the command. */
  function ChildTable(t: Table, w: Wiring): Table {
    if w.stdinRedirected then
      var a := OtherClosed(Moved(t, w.stdinFd, 0), w.otherSide);
      if w.stdoutRedirected then Moved(a, w.stdoutFd, 1) else a
    else if w.stdoutRedirected then OtherClosed(Moved(t, w.stdoutFd, 1), w.otherSide)
    else t
  }

  /** The shell's own descriptors when it waits for the child. */
  function ParentTable(t: Table, w: Wiring): Table {
    var a := if w.stdinRedirected then Closed(t, w.stdinFd) else t;
    if w.stdoutRedirected then Closed(a, w.stdoutFd) else a
  }

  /** What is closed by closing a descriptor: nothing if it is not open. */
  function ClosedBy(t: Table, fd: int): multiset<Target> {
    if fd in t then multiset{t[fd]} else multiset{}
  }

  /** What the shell closes when it waits for the child. */
  function ParentCloses(t: Table, w: Wiring): multiset<Target> {
    var input := if w.stdinRedirected then ClosedBy(t, w.stdinFd) else multiset{};
    var a := if w.stdinRedirected then Closed(t, w.stdinFd) else t;
    input + if w.stdoutRedirected then ClosedBy(a, w.stdoutFd) else multiset{}
  }

  // How pipes tie commands together.

  predicate IsPipe(items: seq<Item>, k: int) {
    0 < k < |items| - 1 && items[k] == Oper(Pipeline)
  }

  /** The command after pipe k reads from it. */
  ghost predicate ReaderOk(line: nat, ws: seq<Wiring>, t: Table, k: int, done: nat)
    requires 0 < k < |ws| - 1
  {
    && ws[k + 1].stdinRedirected && ws[k + 1].stdinFd > 2
    && (done <= k + 1 ==> ws[k + 1].stdinFd in t && t[ws[k + 1].stdinFd] == ReadEnd(line, k))
  }

  ghost predicate WriterOk(line: nat, ws: seq<Wiring>, t: Table, k: int, done: nat)
    requires 0 < k < |ws| - 1
  {
    && ws[k - 1].stdoutRedirected && ws[k - 1].stdoutFd > 2
    && (done <= k - 1 ==> ws[k - 1].stdoutFd in t && t[ws[k - 1].stdoutFd] == WriteEnd(line, k))
  }

  /** Pipes before place `made` are there and commands before place `done` have run: the open ends are exactly
      those of commands that have not run, each under one descriptor. */
  ghost predicate EndsOpen(line: nat, items: seq<Item>, ws: seq<Wiring>, t: Table, done: nat, made: nat) {
    && |ws| == |items|
    && (forall k :: 0 <= k < made && IsPipe(items, k) ==>
      ReaderOk(line, ws, t, k, done) && WriterOk(line, ws, t, k, done))
    && (forall fd :: fd in t && t[fd].ReadEnd? && t[fd].line == line ==>
          t[fd].pipe < made && IsPipe(items, t[fd].pipe) && done <= t[fd].pipe + 1 && fd == ws[t[fd].pipe + 1].stdinFd)
    && (forall fd :: fd in t && t[fd].WriteEnd? && t[fd].line == line ==>
          t[fd].pipe < made && IsPipe(items, t[fd].pipe) && done <= t[fd].pipe - 1 && fd == ws[t[fd].pipe - 1].stdoutFd)
  }

  /** The descriptor of the pipe end that a command holds but does not use. */
  function OtherSide(items: seq<Item>, ws: seq<Wiring>, j: nat, made: nat): int
    requires |ws| == |items| && j < |items|
  {
    if j + 1 < made && IsPipe(items, j + 1) then ws[j + 2].stdinFd
    else if 1 < j <= made && IsPipe(items, j - 1) then ws[j - 2].stdoutFd
    else 0
  }

  /** The descriptor of an opened file, or of one that could not be opened. */
  ghost predicate IsFile(t: Table, fd: int) {
    !(0 <= fd <= 2) && (fd in t ==> t[fd].Plain?)
  }

  /** A redirection that is not a pipe is to a file. */
  ghost predicate FilesApart(items: seq<Item>, ws: seq<Wiring>, t: Table, j: nat, made: nat)
    requires |ws| == |items| && j < |items|
  {
    && (ws[j].stdinRedirected && !(1 <= j <= made && IsPipe(items, j - 1)) ==> IsFile(t, ws[j].stdinFd))
    && (ws[j].stdoutRedirected && !(j + 1 < made && IsPipe(items, j + 1)) ==> IsFile(t, ws[j].stdoutFd))
  }

  ghost predicate Wired(line: nat, items: seq<Item>, ws: seq<Wiring>, t: Table, done: nat, made: nat) {
    && EndsOpen(line, items, ws, t, done, made)
    && (forall j :: 0 <= j < |items| && items[j].Words? ==>
          ws[j].otherSide == OtherSide(items, ws, j, made) && FilesApart(items, ws, t, j, made))
  }

  ghost predicate Only(t: Table, x: Target, fd: int) {
    forall f :: f in t && t[f] == x ==> f == fd
  }

  ghost predicate Absent(t: Table, x: Target) {
    forall f :: f in t ==> t[f] != x
  }

  /** A child reads its input pipe and writes its output pipe under the standard descriptors and has no other
      descriptor on them: neither the writing end of its input nor the reading end of its output. */
  ghost predicate ChildOk(line: nat, items: seq<Item>, child: Table, j: nat) {
    && (IsPipe(items, j - 1) ==>
          && 0 in child && child[0] == ReadEnd(line, j - 1)
          && Only(child, ReadEnd(line, j - 1), 0) && Absent(child, WriteEnd(line, j - 1)))
    && (IsPipe(items, j + 1) ==>
          && 1 in child && child[1] == WriteEnd(line, j + 1)
          && Only(child, WriteEnd(line, j + 1), 1) && Absent(child, ReadEnd(line, j + 1)))
  }

  /** What matters for the command at place j just before it runs. */
  ghost predicate Ready(line: nat, items: seq<Item>, w: Wiring, t: Table, j: nat) {
    && (IsPipe(items, j - 1) ==>
          && w.stdinRedirected && w.stdinFd > 2 && w.stdinFd in t && t[w.stdinFd] == ReadEnd(line, j - 1)
          && Only(t, ReadEnd(line, j - 1), w.stdinFd) && Absent(t, WriteEnd(line, j - 1)))
    && (IsPipe(items, j + 1) ==>
          && w.stdoutRedirected && w.stdoutFd > 2 && w.stdoutFd in t && t[w.stdoutFd] == WriteEnd(line, j + 1)
          && Only(t, WriteEnd(line, j + 1), w.stdoutFd) && w.otherSide > 2 && w.otherSide in t
            && t[w.otherSide] == ReadEnd(line, j + 1)
          && Only(t, ReadEnd(line, j + 1), w.otherSide))
    && (w.otherSide == 0 || w.otherSide > 2)
    && (!IsPipe(items, j - 1) && w.stdinRedirected ==> IsFile(t, w.stdinFd))
    && (!IsPipe(items, j + 1) && w.stdoutRedirected ==> IsFile(t, w.stdoutFd))
  }

  lemma WiredReady(line: nat, items: seq<Item>, ws: seq<Wiring>, t: Table, j: nat)
    requires Alternates(items) && j < |items| && items[j].Words? && Wired(line, items, ws, t, j, |items|)
    ensures Ready(line, items, ws[j], t, j)
  {
  }

  lemma ChildInput(line: nat, items: seq<Item>, w: Wiring, t: Table, j: nat)
    requires Ready(line, items, w, t, j) && IsPipe(items, j - 1)
    ensures var child := ChildTable(t, w);
            && 0 in child && child[0] == ReadEnd(line, j - 1)
            && Only(child, ReadEnd(line, j - 1), 0) && Absent(child, WriteEnd(line, j - 1))
  {
    var a := OtherClosed(Moved(t, w.stdinFd, 0), w.otherSide);
    assert 0 in a && a[0] == ReadEnd(line, j - 1);
    assert Only(a, ReadEnd(line, j - 1), 0) && Absent(a, WriteEnd(line, j - 1));
  }

  lemma ChildOutput(line: nat, items: seq<Item>, w: Wiring, t: Table, j: nat)
    requires Ready(line, items, w, t, j) && IsPipe(items, j + 1)
    ensures var child := ChildTable(t, w);
            && 1 in child && child[1] == WriteEnd(line, j + 1)
            && Only(child, WriteEnd(line, j + 1), 1) && Absent(child, ReadEnd(line, j + 1))
  {
    if w.stdinRedirected {
      var a := OtherClosed(Moved(t, w.stdinFd, 0), w.otherSide);
      assert w.stdoutFd in a && a[w.stdoutFd] == WriteEnd(line, j + 1);
      assert Only(a, WriteEnd(line, j + 1), w.stdoutFd) && Absent(a, ReadEnd(line, j + 1));
    }
  }

  lemma ChildReads(line: nat, items: seq<Item>, w: Wiring, t: Table, j: nat)
    requires Ready(line, items, w, t, j)
    ensures ChildOk(line, items, ChildTable(t, w), j)
  {
    if IsPipe(items, j - 1) {
      ChildInput(line, items, w, t, j);
    }
    if IsPipe(items, j + 1) {
      ChildOutput(line, items, w, t, j);
    }
  }

  /** Before a command is forked, nobody is left who could write to its input pipe. */
  lemma InputWillEnd(line: nat, items: seq<Item>, ws: seq<Wiring>, t: Table, j: nat)
    requires Alternates(items) && 0 < j < |items| && items[j].Words? && Wired(line, items, ws, t, j, |items|)
    ensures forall fd :: fd in t ==> t[fd] != WriteEnd(line, j - 1)
  {
  }

  /** What the shell closes for the command at place j leaves the ends of all later commands open. */
  lemma OthersStay(line: nat, items: seq<Item>, ws: seq<Wiring>, t: Table, j: nat, fd: int)
    requires j < |ws| && Ready(line, items, ws[j], t, j) && fd in t && !t[fd].Plain?
    requires t[fd] != ReadEnd(line, j - 1) && t[fd] != WriteEnd(line, j + 1)
    ensures fd in ParentTable(t, ws[j])
  {
  }

  lemma RunKeepsEnds(line: nat, items: seq<Item>, ws: seq<Wiring>, t: Table, j: nat)
    requires Alternates(items) && j < |items| && items[j].Words? && EndsOpen(line, items, ws, t, j, |items|)
    requires Ready(line, items, ws[j], t, j)
    ensures EndsOpen(line, items, ws, ParentTable(t, ws[j]), j + 1, |items|)
  {
    var t' := ParentTable(t, ws[j]);
    forall k | 0 <= k < |items| && IsPipe(items, k)
      ensures ReaderOk(line, ws, t', k, j + 1) && WriterOk(line, ws, t', k, j + 1) {
      assert ReaderOk(line, ws, t, k, j) && WriterOk(line, ws, t, k, j);
      if j + 1 <= k + 1 {
        OthersStay(line, items, ws, t, j, ws[k + 1].stdinFd);
      }
      if j + 1 <= k - 1 {
        OthersStay(line, items, ws, t, j, ws[k - 1].stdoutFd);
      }
    }
  }

  /** Running the command at place j closes its ends and no other. */
  lemma RunKeepsWired(line: nat, items: seq<Item>, ws: seq<Wiring>, t: Table, j: nat)
    requires Alternates(items) && j < |items| && items[j].Words? && Wired(line, items, ws, t, j, |items|)
    ensures Wired(line, items, ws, ParentTable(t, ws[j]), j + 1, |items|)
  {
    WiredReady(line, items, ws, t, j);
    RunKeepsEnds(line, items, ws, t, j);
    forall i | 0 <= i < |items| && items[i].Words? ensures FilesApart(items, ws, ParentTable(t, ws[j]), i, |items|) {
    }
  }

  // How often ends are closed.

  /** Each end of the line's pipes has been closed once if its command has run, and otherwise not at all. */
  ghost predicate ClosedOnce(line: nat, items: seq<Item>, closed: multiset<Target>, done: nat) {
    forall k :: IsPipe(items, k) ==> EndClosed(line, closed, k, done)
  }

  predicate EndClosed(line: nat, closed: multiset<Target>, k: int, done: nat) {
    && closed[ReadEnd(line, k)] == (if k + 1 < done then 1 else 0)
    && closed[WriteEnd(line, k)] == (if k - 1 < done then 1 else 0)
  }

  lemma RunClosesOnce(line: nat, items: seq<Item>, w: Wiring, t: Table, closed: multiset<Target>, j: nat)
    requires Ready(line, items, w, t, j) && ClosedOnce(line, items, closed, j)
    ensures ClosedOnce(line, items, closed + ParentCloses(t, w), j + 1)
  {
    forall k | IsPipe(items, k) ensures EndClosed(line, closed + ParentCloses(t, w), k, j + 1) {
      assert EndClosed(line, closed, k, j);
      assert ParentCloses(t, w)[ReadEnd(line, k)] == if k == j - 1 then 1 else 0;
      assert ParentCloses(t, w)[WriteEnd(line, k)] == if k == j + 1 then 1 else 0;
    }
  }

  lemma OperatorClosesNone(line: nat, items: seq<Item>, closed: multiset<Target>, j: nat)
    requires Alternates(items) && j < |items| && items[j].Oper? && ClosedOnce(line, items, closed, j)
    ensures ClosedOnce(line, items, closed, j + 1)
  {
    forall k | IsPipe(items, k) ensures EndClosed(line, closed, k, j + 1) {
      assert EndClosed(line, closed, k, j);
    }
  }

  // Making the pipes.

  /** Descriptor numbers from `next` on are unused, and the standard ones are never handed out. */
  ghost predicate Unused(ws: seq<Wiring>, t: Table, next: int) {
    && next > 2
    && (forall fd :: fd in t ==> fd < next)
    && (forall j :: 0 <= j < |ws| ==> ws[j].stdinFd < next && ws[j].stdoutFd < next)
  }

  /** The wiring after the pipe at place e is made as (r, w). */
  function Rewired(ws: seq<Wiring>, e: nat, r: int, w: int): (res: seq<Wiring>)
    requires 0 < e < |ws| - 1
    ensures |res| == |ws|
  {
    ws[e + 1 := ws[e + 1].(stdinFd := r, stdinRedirected := true, otherSide := w)]
      [e - 1 := ws[e - 1].(stdoutFd := w, stdoutRedirected := true, otherSide := r)]
  }

  function Piped(line: nat, t: Table, e: nat, r: int, w: int): Table {
    t[r := ReadEnd(line, e)][w := WriteEnd(line, e)]
  }

  lemma PipeKeepsEnds(line: nat, items: seq<Item>, ws: seq<Wiring>, t: Table, e: nat, next: int)
    requires IsPipe(items, e) && EndsOpen(line, items, ws, t, 0, e) && Unused(ws, t, next)
    ensures EndsOpen(line, items, Rewired(ws, e, next, next + 1), Piped(line, t, e, next, next + 1), 0, e + 1)
  {
  }

  lemma PipeKeepsWired(line: nat, items: seq<Item>, ws: seq<Wiring>, t: Table, e: nat, next: int)
    requires Alternates(items) && IsPipe(items, e) && Wired(line, items, ws, t, 0, e) && Unused(ws, t, next)
    ensures Wired(line, items, Rewired(ws, e, next, next + 1), Piped(line, t, e, next, next + 1), 0, e + 1)
  {
    PipeKeepsEnds(line, items, ws, t, e, next);
  }

  lemma PipeKeepsUnused(line: nat, ws: seq<Wiring>, t: Table, e: nat, next: int)
    requires 0 < e < |ws| - 1 && Unused(ws, t, next)
    ensures Unused(Rewired(ws, e, next, next + 1), Piped(line, t, e, next, next + 1), next + 2)
  {
  }

  lemma NoPipeKeepsWired(line: nat, items: seq<Item>, ws: seq<Wiring>, t: Table, e: nat)
    requires e < |items| && !IsPipe(items, e) && Wired(line, items, ws, t, 0, e)
    ensures Wired(line, items, ws, t, 0, e + 1)
  {
  }

  /** Exactly: an end is open if and only if the command it belongs to has not run. */
  lemma OpenExactly(line: nat, items: seq<Item>, ws: seq<Wiring>, t: Table, done: nat, k: nat)
    requires IsPipe(items, k) && EndsOpen(line, items, ws, t, done, |items|)
    ensures (exists fd :: fd in t && t[fd] == ReadEnd(line, k)) <==> done <= k + 1
    ensures (exists fd :: fd in t && t[fd] == WriteEnd(line, k)) <==> done <= k - 1
  {
    assert ReaderOk(line, ws, t, k, done) && WriterOk(line, ws, t, k, done);
  }

  /** A line that runs to its end leaves none of its pipes behind. */
  lemma NothingLeaks(line: nat, items: seq<Item>, ws: seq<Wiring>, t: Table, fd: int)
    requires EndsOpen(line, items, ws, t, |items|, |items|) && fd in t
    ensures t[fd].Plain? || t[fd].line != line
  {
  }
}
