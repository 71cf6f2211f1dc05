/** The files of a command line: which words name them, and which descriptors stand for them in shell and children. */
module Files {
  import opened Commands
  import opened Pipelines

  // A command's words and redirections.

  datatype Option<T> = None | Some(value: T)

  datatype Redirections = Redirections(args: seq<string>, input: Option<string>, output: Option<string>)

  predicate IsRedirection(word: string) {
    word == "<" || word == ">"
  }

  /** From place i on, every `<` and `>` has a word after it. */
  predicate CompleteFrom(words: seq<string>, i: nat)
    decreases |words| - i
  {
    i >= |words| || if IsRedirection(words[i]) then i + 1 < |words| && CompleteFrom(words, i + 2)
      else CompleteFrom(words, i + 1)
  }

  predicate Complete(words: seq<string>) {
    CompleteFrom(words, 0)
  }

  /** Arguments in order, and for each direction the last file named. */
  function Scan(words: seq<string>, i: nat, r: Redirections): Redirections
    requires CompleteFrom(words, i)
    decreases |words| - i
  {
    if i >= |words| then r
    else if words[i] == "<" then Scan(words, i + 2, r.(input := Some(words[i + 1])))
    else if words[i] == ">" then Scan(words, i + 2, r.(output := Some(words[i + 1])))
    else Scan(words, i + 1, r.(args := r.args + [words[i]]))
  }

  function Redirected(words: seq<string>): Redirections
    requires Complete(words)
  {
    Scan(words, 0, Redirections([], None, None))
  }

  // What a command's words name, told from its parts.

  /** The second of two redirections in a direction is the one that holds. */
  function Later(a: Redirections, b: Redirections): Redirections {
    Redirections(a.args + b.args, if b.input.Some? then b.input else a.input,
                 if b.output.Some? then b.output else a.output)
  }

  lemma LaterIs(a: Redirections, b: Redirections, c: Redirections)
    ensures Later(Later(a, b), c) == Later(a, Later(b, c))
    ensures Later(a, Redirections([], None, None)) == a == Later(Redirections([], None, None), a)
  {
    assert a.args + b.args + c.args == a.args + (b.args + c.args);
    assert a.args + [] == a.args == [] + a.args;
  }

  /** The loop goes on from what it has as from nothing. */
  lemma {:induction false} ScanAdds(words: seq<string>, i: nat, r: Redirections)
    requires CompleteFrom(words, i)
    ensures Scan(words, i, r) == Later(r, Scan(words, i, Redirections([], None, None)))
    decreases |words| - i
  {
    var none := Redirections([], None, None);
    if i >= |words| {
      LaterIs(r, none, none);
    } else {
      var (one, n) := if words[i] == "<" then (none.(input := Some(words[i + 1])), 2)
                      else if words[i] == ">" then (none.(output := Some(words[i + 1])), 2)
                      else (none.(args := [words[i]]), 1);
      assert r.args + [] == r.args && [] + [words[i]] == [words[i]];
      ScanAdds(words, i + n, Later(r, one));
      ScanAdds(words, i + n, one);
      LaterIs(r, one, Scan(words, i + n, none));
    }
  }

  lemma {:induction false} ScanShifts(a: seq<string>, b: seq<string>, i: nat, r: Redirections)
    requires CompleteFrom(b, i)
    ensures CompleteFrom(a + b, |a| + i) && Scan(a + b, |a| + i, r) == Scan(b, i, r)
    decreases |b| - i
  {
    if i < |b| {
      assert (a + b)[|a| + i] == b[i];
      if IsRedirection(b[i]) {
        assert (a + b)[|a| + i + 1] == b[i + 1];
        ScanShifts(a, b, i + 2, if b[i] == "<" then r.(input := Some(b[i + 1])) else r.(output := Some(b[i + 1])));
      } else {
        ScanShifts(a, b, i + 1, r.(args := r.args + [b[i]]));
      }
    }
  }

  lemma {:induction false} ScanPasses(a: seq<string>, b: seq<string>, i: nat, r: Redirections)
    requires CompleteFrom(a, i) && Complete(b) && i <= |a|
    ensures CompleteFrom(a + b, i) && Scan(a + b, i, r) == Scan(b, 0, Scan(a, i, r))
    decreases |a| - i
  {
    if i < |a| {
      assert (a + b)[i] == a[i];
      if IsRedirection(a[i]) {
        assert (a + b)[i + 1] == a[i + 1];
        ScanPasses(a, b, i + 2, if a[i] == "<" then r.(input := Some(a[i + 1])) else r.(output := Some(a[i + 1])));
      } else {
        ScanPasses(a, b, i + 1, r.(args := r.args + [a[i]]));
      }
    } else {
      ScanShifts(a, b, 0, r);
    }
  }

  /** The arguments of words put together are the arguments put together, and later redirections hold. */
  lemma RedirectedConcat(a: seq<string>, b: seq<string>)
    requires Complete(a) && Complete(b)
    ensures Complete(a + b) && Redirected(a + b) == Later(Redirected(a), Redirected(b))
  {
    ScanPasses(a, b, 0, Redirections([], None, None));
    ScanAdds(b, 0, Redirected(a));
  }

  /** No word that redirects. */
  predicate Unredirected(words: seq<string>) {
    forall i :: 0 <= i < |words| ==> words[i] != "<" && words[i] != ">"
  }

  lemma {:induction false} UnredirectedFrom(words: seq<string>, i: nat, r: Redirections)
    requires Unredirected(words) && i <= |words|
    ensures CompleteFrom(words, i) && Scan(words, i, r) == r.(args := r.args + words[i..])
    decreases |words| - i
  {
    if i < |words| {
      UnredirectedFrom(words, i + 1, r.(args := r.args + [words[i]]));
      assert r.args + [words[i]] + words[i + 1..] == r.args + words[i..];
    } else {
      assert r.args + words[i..] == r.args;
    }
  }

  /** Words that do not redirect are the arguments. */
  lemma ArgumentsOnly(words: seq<string>)
    requires Unredirected(words)
    ensures Complete(words) && Redirected(words) == Redirections(words, None, None)
  {
    UnredirectedFrom(words, 0, Redirections([], None, None));
    assert [] + words[0..] == words;
  }

  /** The last `<` names the input and the last `>` the output, and neither touches the other. */
  lemma LastNamed(before: seq<string>, file: string, rest: seq<string>)
    requires Complete(before) && Unredirected(rest)
    ensures Complete(before + ["<", file] + rest) && Complete(before + [">", file] + rest)
    ensures Redirected(before + ["<", file] + rest)
         == Redirections(Redirected(before).args + rest, Some(file), Redirected(before).output)
    ensures Redirected(before + [">", file] + rest)
         == Redirections(Redirected(before).args + rest, Redirected(before).input, Some(file))
  {
    ArgumentsOnly(rest);
    OneFile("<", file);
    OneFile(">", file);
    RedirectedConcat(before, ["<", file]);
    RedirectedConcat(before, [">", file]);
    RedirectedConcat(before + ["<", file], rest);
    RedirectedConcat(before + [">", file], rest);
    assert Redirected(before).args + [] == Redirected(before).args;
  }

  lemma OneFile(sign: string, file: string)
    requires sign == "<" || sign == ">"
    ensures Complete([sign, file])
    ensures Redirected([sign, file])
         == if sign == "<" then Redirections([], Some(file), None) else Redirections([], None, Some(file))
  {
    var words, none := [sign, file], Redirections([], None, None);
    assert CompleteFrom(words, 2);
    var r := if sign == "<" then none.(input := Some(file)) else none.(output := Some(file));
    assert Scan(words, 0, none) == Scan(words, 2, r) == r;
  }

  /** Files have been opened, and nothing else has changed. */
  ghost predicate Extends(t: Table, t': Table) {
    && (forall fd :: fd in t ==> fd in t' && t'[fd] == t[fd])
    && (forall fd :: fd in t' && fd !in t ==> t'[fd].Plain?)
  }

  /** How a command's descriptor for a redirection to a file shows in the table. */
  ghost predicate Shown(file: Option<string>, canOpen: (string, bool) -> bool, writing: bool, t: Table,
        redirected: bool, fd: int) {
    && redirected == file.Some?
    && (redirected ==> !(0 <= fd <= 2))
    && (redirected && canOpen(file.value, writing) ==> fd in t && t[fd] == Plain(file.value))
    && (redirected && !canOpen(file.value, writing) ==> fd == -1)
  }

  // The files of a line's commands, as the line runs.

  predicate AllComplete(items: seq<Item>) {
    forall i :: 0 <= i < |items| && items[i].Words? ==> Complete(items[i].words)
  }

  predicate LeftPiped(items: seq<Item>, j: nat, made: nat) {
    1 <= j <= made && IsPipe(items, j - 1)
  }

  predicate RightPiped(items: seq<Item>, j: nat, made: nat) {
    j + 1 < made && IsPipe(items, j + 1)
  }

  /** The standard descriptors of `std` are as they are in `t`. */
  ghost predicate SameStandard(std: Table, t: Table) {
    SameAt(std, t, 0) && SameAt(std, t, 1) && SameAt(std, t, 2)
  }

  ghost predicate SameAt(std: Table, t: Table, fd: int) {
    (fd in std <==> fd in t) && (fd in t ==> t[fd] == std[fd])
  }

  /** Descriptors that are different, or stand for nothing. */
  predicate Unlike(a: int, b: int) {
    a == b ==> a == -1
  }

  predicate Apart(a: Wiring, b: Wiring) {
    && Unlike(a.stdinFd, b.stdinFd) && Unlike(a.stdinFd, b.stdoutFd)
    && Unlike(a.stdoutFd, b.stdinFd) && Unlike(a.stdoutFd, b.stdoutFd)
  }

  predicate OwnApart(w: Wiring) {
    Unlike(w.stdinFd, w.stdoutFd) && !(0 <= w.stdinFd <= 2) && !(0 <= w.stdoutFd <= 2)
  }

  /** No descriptor is a standard one or belongs to two redirections. */
  predicate Separate(ws: seq<Wiring>) {
    && (forall j {:trigger OwnApart(ws[j])} :: 0 <= j < |ws| ==> OwnApart(ws[j]))
    && (forall i, j {:trigger Apart(ws[i], ws[j])} :: 0 <= i < |ws| && 0 <= j < |ws| && i != j ==> Apart(ws[i], ws[j]))
  }

  /** The command's files, where no pipe has taken their place. */
  ghost predicate FilesShown(items: seq<Item>, w: Wiring, canOpen: (string, bool) -> bool, t: Table, j: nat, made: nat)
    requires AllComplete(items) && j < |items| && items[j].Words?
  {
    var r := Redirected(items[j].words);
    && (!LeftPiped(items, j, made) ==> Shown(r.input, canOpen, false, t, w.stdinRedirected, w.stdinFd))
    && (!RightPiped(items, j, made) ==> Shown(r.output, canOpen, true, t, w.stdoutRedirected, w.stdoutFd))
  }

  /** Commands before place `done` have run and the others have their files. */
  ghost predicate HoldsFiles(items: seq<Item>, ws: seq<Wiring>, canOpen: (string, bool) -> bool, t: Table, done: nat,
        made: nat)
    requires AllComplete(items) && |ws| == |items|
  {
    forall j {:trigger FilesShown(items, ws[j], canOpen, t, j, made)} :: done <= j < |items| && items[j].Words? ==>
      FilesShown(items, ws[j], canOpen, t, j, made)
  }

  /** What commands had open for themselves, pipe or file, is closed once they have run. */
  ghost predicate Gone(items: seq<Item>, ws: seq<Wiring>, t: Table, done: nat) {
    && |ws| == |items|
    && forall j :: 0 <= j < |items| && j < done && items[j].Words? ==> IsGone(ws[j], t)
  }

  ghost predicate IsGone(w: Wiring, t: Table) {
    (w.stdinRedirected ==> w.stdinFd !in t) && (w.stdoutRedirected ==> w.stdoutFd !in t)
  }

  /** Pipes and files of a line that is being built, or run from place `done` on, by a shell whose standard
      descriptors were those of `std`. */
  ghost predicate Laid(line: nat, items: seq<Item>, ws: seq<Wiring>, canOpen: (string, bool) -> bool, std: Table,
        t: Table, done: nat, made: nat)
    requires AllComplete(items)
  {
    && Wired(line, items, ws, t, done, made)
    && Separate(ws) && SameStandard(std, t)
    && Gone(items, ws, t, done)
    && HoldsFiles(items, ws, canOpen, t, done, made)
  }

  // What a child gets.

  /** A standard descriptor of a child whose command names a file for it, or none. */
  ghost predicate StreamOk(file: Option<string>, canOpen: (string, bool) -> bool, writing: bool, std: Table,
        child: Table, fd: int) {
    match file
    case None => SameAt(std, child, fd)
    case Some(name) => if canOpen(name, writing) then fd in child && child[fd] == Plain(name) else fd !in child
  }

  /** Where there is no pipe, a child reads from the file its command names last, writes to the one it names last,
      and otherwise shares the shell's own standard descriptors; a file that cannot be opened leaves nothing there. */
  ghost predicate FilesOk(items: seq<Item>, canOpen: (string, bool) -> bool, std: Table, child: Table, j: nat)
    requires AllComplete(items)
  {
    j < |items| && items[j].Words? ==>
      var r := Redirected(items[j].words);
      && (!IsPipe(items, j - 1) ==> StreamOk(r.input, canOpen, false, std, child, 0))
      && (!IsPipe(items, j + 1) ==> StreamOk(r.output, canOpen, true, std, child, 1))
      && SameAt(std, child, 2)
  }

  /** The other end of a command's pipe is not one of the command's files. */
  ghost predicate OtherApart(w: Wiring, t: Table) {
    w.otherSide == 0 || (w.otherSide > 2 && (w.otherSide in t ==> !t[w.otherSide].Plain?))
  }

  lemma OtherIsApart(line: nat, items: seq<Item>, ws: seq<Wiring>, t: Table, j: nat)
    requires Alternates(items) && j < |items| && items[j].Words? && Wired(line, items, ws, t, j, |items|)
    requires Gone(items, ws, t, j)
    ensures OtherApart(ws[j], t)
  {
    WiredReady(line, items, ws, t, j);
    if IsPipe(items, j - 1) && !IsPipe(items, j + 1) {
      assert WriterOk(line, ws, t, j - 1, j) && items[j - 2].Words? && IsGone(ws[j - 2], t);
    }
  }

  lemma InputFile(w: Wiring, canOpen: (string, bool) -> bool, file: Option<string>, std: Table, t: Table)
    requires OwnApart(w) && OtherApart(w, t) && SameStandard(std, t) && -1 !in t
    requires Shown(file, canOpen, false, t, w.stdinRedirected, w.stdinFd)
    ensures StreamOk(file, canOpen, false, std, ChildTable(t, w), 0)
  {
  }

  lemma OutputFile(w: Wiring, canOpen: (string, bool) -> bool, file: Option<string>, std: Table, t: Table)
    requires OwnApart(w) && OtherApart(w, t) && SameStandard(std, t) && -1 !in t
    requires Shown(file, canOpen, true, t, w.stdoutRedirected, w.stdoutFd)
    ensures StreamOk(file, canOpen, true, std, ChildTable(t, w), 1)
  {
  }

  lemma ErrorsKept(w: Wiring, std: Table, t: Table)
    requires OwnApart(w) && OtherApart(w, t) && SameStandard(std, t)
    ensures SameAt(std, ChildTable(t, w), 2)
  {
  }

  lemma ChildFiles(line: nat, items: seq<Item>, ws: seq<Wiring>, canOpen: (string, bool) -> bool, std: Table, t: Table,
        j: nat)
    requires AllComplete(items) && Alternates(items) && j < |items| && items[j].Words? && -1 !in t
    requires Laid(line, items, ws, canOpen, std, t, j, |items|)
    ensures FilesOk(items, canOpen, std, ChildTable(t, ws[j]), j)
  {
    OtherIsApart(line, items, ws, t, j);
    var r := Redirected(items[j].words);
    assert FilesShown(items, ws[j], canOpen, t, j, |items|);
    if !IsPipe(items, j - 1) {
      InputFile(ws[j], canOpen, r.input, std, t);
    }
    if !IsPipe(items, j + 1) {
      OutputFile(ws[j], canOpen, r.output, std, t);
    }
    ErrorsKept(ws[j], std, t);
  }

  // How the files stay as pipes are made and commands run.

  /** Running a command closes only its own descriptors. */
  lemma RunKeepsOther(w: Wiring, other: Wiring, file: Option<string>, canOpen: (string, bool) -> bool, writing: bool,
        t: Table, redirected: bool, fd: int)
    requires Apart(w, other) && (fd == other.stdinFd || fd == other.stdoutFd)
    requires Shown(file, canOpen, writing, t, redirected, fd) && -1 !in t
    ensures Shown(file, canOpen, writing, ParentTable(t, w), redirected, fd)
  {
  }

  lemma RunKeepsLaid(line: nat, items: seq<Item>, ws: seq<Wiring>, canOpen: (string, bool) -> bool, std: Table,
        t: Table, j: nat)
    requires AllComplete(items) && Alternates(items) && j < |items| && items[j].Words? && -1 !in t
    requires Laid(line, items, ws, canOpen, std, t, j, |items|)
    ensures Laid(line, items, ws, canOpen, std, ParentTable(t, ws[j]), j + 1, |items|)
  {
    var t' := ParentTable(t, ws[j]);
    RunKeepsWired(line, items, ws, t, j);
    forall i | 0 <= i < j + 1 && items[i].Words? ensures IsGone(ws[i], t') {
      assert i < j ==> IsGone(ws[i], t);
    }
    forall i | j + 1 <= i < |items| && items[i].Words? ensures FilesShown(items, ws[i], canOpen, t', i, |items|) {
      assert FilesShown(items, ws[i], canOpen, t, i, |items|) && Apart(ws[j], ws[i]);
      var r := Redirected(items[i].words);
      if !LeftPiped(items, i, |items|) {
        RunKeepsOther(ws[j], ws[i], r.input, canOpen, false, t, ws[i].stdinRedirected, ws[i].stdinFd);
      }
      if !RightPiped(items, i, |items|) {
        RunKeepsOther(ws[j], ws[i], r.output, canOpen, true, t, ws[i].stdoutRedirected, ws[i].stdoutFd);
      }
    }
  }

  lemma OperatorKeepsWired(line: nat, items: seq<Item>, ws: seq<Wiring>, t: Table, j: nat)
    requires Alternates(items) && j < |items| && items[j].Oper? && Wired(line, items, ws, t, j, |items|)
    ensures Wired(line, items, ws, t, j + 1, |items|)
  {
  }

  lemma OperatorKeepsLaid(line: nat, items: seq<Item>, ws: seq<Wiring>, canOpen: (string, bool) -> bool, std: Table,
        t: Table, j: nat)
    requires AllComplete(items) && Alternates(items) && j < |items| && items[j].Oper?
    requires Laid(line, items, ws, canOpen, std, t, j, |items|)
    ensures Laid(line, items, ws, canOpen, std, t, j + 1, |items|)
  {
    OperatorKeepsWired(line, items, ws, t, j);
    forall i | j + 1 <= i < |items| && items[i].Words? ensures FilesShown(items, ws[i], canOpen, t, i, |items|) {
    }
  }

  lemma PipeKeepsSeparate(ws: seq<Wiring>, t: Table, e: nat, next: int)
    requires 0 < e < |ws| - 1 && Unused(ws, t, next) && Separate(ws)
    ensures Separate(Rewired(ws, e, next, next + 1))
  {
    var ws' := Rewired(ws, e, next, next + 1);
    forall j | 0 <= j < |ws| ensures OwnApart(ws'[j]) {
      assert OwnApart(ws[j]);
    }
    forall i, j | 0 <= i < |ws| && 0 <= j < |ws| && i != j ensures Apart(ws'[i], ws'[j]) {
      assert Apart(ws[i], ws[j]);
    }
  }

  lemma PipeKeepsLaid(line: nat, items: seq<Item>, ws: seq<Wiring>, canOpen: (string, bool) -> bool, std: Table,
        t: Table, e: nat, next: int)
    requires AllComplete(items) && Alternates(items) && IsPipe(items, e) && Unused(ws, t, next)
    requires Laid(line, items, ws, canOpen, std, t, 0, e)
    ensures Laid(line, items, Rewired(ws, e, next, next + 1), canOpen, std, Piped(line, t, e, next, next + 1), 0, e + 1)
  {
    var ws', t' := Rewired(ws, e, next, next + 1), Piped(line, t, e, next, next + 1);
    PipeKeepsWired(line, items, ws, t, e, next);
    PipeKeepsSeparate(ws, t, e, next);
    forall j | 0 <= j < |items| && items[j].Words? ensures FilesShown(items, ws'[j], canOpen, t', j, e + 1) {
      assert FilesShown(items, ws[j], canOpen, t, j, e);
    }
  }

  lemma NoPipeKeepsLaid(line: nat, items: seq<Item>, ws: seq<Wiring>, canOpen: (string, bool) -> bool, std: Table,
        t: Table, e: nat)
    requires AllComplete(items) && e < |items| && !IsPipe(items, e)
    requires Laid(line, items, ws, canOpen, std, t, 0, e)
    ensures Laid(line, items, ws, canOpen, std, t, 0, e + 1)
  {
    NoPipeKeepsWired(line, items, ws, t, e);
    forall j | 0 <= j < |items| && items[j].Words? ensures FilesShown(items, ws[j], canOpen, t, j, e + 1) {
      assert FilesShown(items, ws[j], canOpen, t, j, e);
    }
  }
}
