/** Quicksort with the two halves of a long range as tasks: calls of all tasks step in any order over one array. */
module ParallelQuicksort {
  import opened Sums
  import opened Quicksort

  /** Ranges longer than this are halved into tasks, others serially. */
  const CUTOFF := 1000

  datatype Phase = Start | Scanning(pivot: int, less: int, more: int)

  /** An unfinished call: the task that makes it, whether it may spawn tasks, its range and how far it is. */
  datatype Frame = Frame(task: nat, parallel: bool, l: int, r: int, phase: Phase)

  /** The array, the unfinished calls from left to right, and the next task number. */
  datatype Sorter = Sorter(data: seq<int>, open: seq<Frame>, next: nat)

  function Begin(a: seq<int>): Sorter {
    Sorter(a, [Frame(0, true, 0, |a| - 1, Start)], 1)
  }

  predicate Fits(n: nat, f: Frame) {
    && 0 <= f.l <= f.r + 1 <= n
    && (f.phase.Scanning? ==> f.l < f.r && f.l - 1 <= f.phase.less < f.phase.more && f.l <= f.phase.more <= f.r + 1)
  }

  /** A call may step when its task has no earlier one left: a task finishes the left half before the right. */
  predicate Enabled(s: Sorter, k: nat) {
    && k < |s.open| && Fits(|s.data|, s.open[k])
    && forall i :: 0 <= i < k ==> s.open[i].task != s.open[k].task
  }

  predicate Spawns(f: Frame) {
    f.parallel && f.r - f.l > CUTOFF
  }

  function Halves(f: Frame, p: int, next: nat): (seq<Frame>, nat) {
    if Spawns(f) then ([Frame(next, true, f.l, p - 1, Start), Frame(next + 1, true, p + 1, f.r, Start)], next + 2)
    else ([Frame(f.task, false, f.l, p - 1, Start), Frame(f.task, false, p + 1, f.r, Start)], next)
  }

  /** A call that has taken its pivot and is about to look at its first element. */
  function Entered(a: seq<int>, f: Frame): Frame
    requires Fits(|a|, f) && f.l < f.r
  {
    f.(phase := Scanning(a[f.r], f.l - 1, f.l))
  }

  predicate Moving(n: nat, f: Frame) {
    Fits(n, f) && f.phase.Scanning? && f.phase.more <= f.r
  }

  /** One turn of the partition loop. */
  function Moved(a: seq<int>, f: Frame): (seq<int>, Frame)
    requires Moving(|a|, f)
  {
    var Scanning(pivot, less, more) := f.phase;
    if a[more] <= pivot then (Swap(a, less + 1, more), f.(phase := Scanning(pivot, less + 1, more + 1)))
    else (a, f.(phase := Scanning(pivot, less, more + 1)))
  }

  /** One step of call k: begin, one turn of the partition loop, or hand over to the halves. */
  function Step(s: Sorter, k: nat): Sorter
    requires Enabled(s, k)
  {
    var f := s.open[k];
    match f.phase
    case Start =>
      if f.r > f.l then s.(open := s.open[k := Entered(s.data, f)])
      else s.(open := s.open[..k] + s.open[k + 1..])
    case Scanning(_, less, more) =>
      if more > f.r then
        var (halves, next) := Halves(f, less, s.next);
        s.(open := s.open[..k] + halves + s.open[k + 1..], next := next)
      else
        var (data, f') := Moved(s.data, f);
        Sorter(data, s.open[k := f'], s.next)
  }

  /** `ks` says which call steps each time. */
  predicate Runs(s: Sorter, ks: seq<nat>)
    decreases |ks|
  {
    ks != [] ==> Enabled(s, ks[0]) && Runs(Step(s, ks[0]), ks[1..])
  }

  function After(s: Sorter, ks: seq<nat>): Sorter
    requires Runs(s, ks)
    decreases |ks|
  {
    if ks == [] then s else After(Step(s, ks[0]), ks[1..])
  }

  // What every step keeps.

  ghost predicate FrameOk(a: seq<int>, f: Frame) {
    && Fits(|a|, f)
    && (f.phase.Scanning? ==> Parted(a, f.l, f.r, f.phase.pivot, f.phase.less, f.phase.more))
  }

  ghost predicate Ordered(open: seq<Frame>) {
    forall i, j :: 0 <= i < j < |open| ==> open[i].r < open[j].l
  }

  /** Some unfinished call has both positions in its range. */
  ghost predicate Pending(open: seq<Frame>, i: int, j: int) {
    exists k :: 0 <= k < |open| && open[k].l <= i && j <= open[k].r
  }

  ghost predicate Settled(a: seq<int>, open: seq<Frame>) {
    forall i, j :: 0 <= i < j < |a| && !Pending(open, i, j) ==> a[i] <= a[j]
  }

  ghost predicate Inv(a: seq<int>, s: Sorter) {
    && multiset(s.data) == multiset(a) && |s.data| == |a|
    && (forall k :: 0 <= k < |s.open| ==> FrameOk(s.data, s.open[k]) && s.open[k].task < s.next)
    && Ordered(s.open)
    && Settled(s.data, s.open)
  }

  /** Other calls do not notice what happens in a range that is not theirs. */
  lemma FrameKept(a: seq<int>, b: seq<int>, l: int, r: int, f: Frame)
    requires FrameOk(a, f) && Rearranged(a, b, l, r) && (f.r < l || r < f.l)
    ensures FrameOk(b, f)
  {
  }

  lemma SettledKept(a: seq<int>, b: seq<int>, open: seq<Frame>, k: nat)
    requires k < |open| && Ordered(open) && Settled(a, open)
    requires Within(a, open[k].l, open[k].r) && Rearranged(a, b, open[k].l, open[k].r)
    ensures Settled(b, open)
  {
    var l, r := open[k].l, open[k].r;
    forall i, j | 0 <= i < j < |b| && !Pending(open, i, j) ensures b[i] <= b[j] {
      assert !(l <= i && j <= r);
      var i' := Source(a, b, l, r, i);
      var j' := Source(a, b, l, r, j);
      forall m | 0 <= m < |open| ensures !(open[m].l <= i' && j' <= open[m].r) {
        assert m < k ==> open[m].r < l;
        assert k < m ==> r < open[m].l;
        assert !(open[m].l <= i && j <= open[m].r);
      }
    }
  }

  /** Where an element of a rearranged range may have come from. */
  lemma Source(a: seq<int>, b: seq<int>, l: int, r: int, i: int) returns (from: int)
    requires Within(a, l, r) && Rearranged(a, b, l, r) && 0 <= i < |a|
    ensures 0 <= from < |a| && a[from] == b[i]
    ensures if l <= i <= r then l <= from <= r else from == i
  {
    if l <= i <= r {
      RearrangedBound(a, b, l, r, i);
      from :| l <= from <= r && a[from] == b[i];
    } else {
      from := i;
    }
  }

  /** Work inside the range of call k keeps the invariant. */
  lemma WorkKeeps(a: seq<int>, s: Sorter, k: nat, b: seq<int>, f: Frame)
    requires Inv(a, s) && k < |s.open|
    requires f.l == s.open[k].l && f.r == s.open[k].r && f.task == s.open[k].task && FrameOk(b, f)
    requires Rearranged(s.data, b, f.l, f.r)
    ensures Inv(a, Sorter(b, s.open[k := f], s.next))
  {
    var open := s.open[k := f];
    forall i | 0 <= i < |open| ensures FrameOk(b, open[i]) && open[i].task < s.next {
      if i != k {
        FrameKept(s.data, b, f.l, f.r, s.open[i]);
      }
    }
    SettledKept(s.data, b, s.open, k);
    SameRanges(s.open, open, b);
  }

  lemma MovedOk(a: seq<int>, f: Frame)
    requires FrameOk(a, f) && Moving(|a|, f)
    ensures FrameOk(Moved(a, f).0, Moved(a, f).1)
  {
    PartedStep(a, f.l, f.r, f.phase.pivot, f.phase.less, f.phase.more);
  }

  lemma MovedInside(a: seq<int>, f: Frame)
    requires Moving(|a|, f)
    ensures Rearranged(a, Moved(a, f).0, f.l, f.r)
  {
    SwapRearranges(a, f.phase.less + 1, f.phase.more, f.l, f.r);
  }

  lemma MoveKeeps(a: seq<int>, s: Sorter, k: nat)
    requires Inv(a, s) && Enabled(s, k) && Moving(|s.data|, s.open[k])
    ensures Inv(a, Step(s, k))
  {
    MovedOk(s.data, s.open[k]);
    MovedInside(s.data, s.open[k]);
    var (b, f) := Moved(s.data, s.open[k]);
    WorkKeeps(a, s, k, b, f);
  }

  lemma SameRanges(open: seq<Frame>, open': seq<Frame>, a: seq<int>)
    requires Ordered(open) && Settled(a, open) && |open| == |open'|
    requires forall k :: 0 <= k < |open| ==> open'[k].l == open[k].l && open'[k].r == open[k].r
    ensures Ordered(open') && Settled(a, open')
  {
    forall i, j | Pending(open, i, j) ensures Pending(open', i, j) {
      var k :| 0 <= k < |open| && open[k].l <= i && j <= open[k].r;
      assert open'[k].l <= i;
    }
  }

  lemma EnteredOk(a: seq<int>, f: Frame)
    requires Fits(|a|, f) && f.l < f.r
    ensures FrameOk(a, Entered(a, f))
  {
  }

  lemma EnterKeeps(a: seq<int>, s: Sorter, k: nat)
    requires Inv(a, s) && Enabled(s, k) && s.open[k].phase.Start? && s.open[k].l < s.open[k].r
    ensures Inv(a, Step(s, k))
  {
    EnteredOk(s.data, s.open[k]);
    WorkKeeps(a, s, k, s.data, Entered(s.data, s.open[k]));
  }

  lemma LeaveKeeps(a: seq<int>, s: Sorter, k: nat)
    requires Inv(a, s) && Enabled(s, k) && s.open[k].phase.Start? && s.open[k].l >= s.open[k].r
    ensures Inv(a, Step(s, k))
  {
    var t := Step(s, k);
    Cut(s.open, k, []);
    forall i, j | 0 <= i < j < |s.data| && Pending(s.open, i, j) ensures Pending(t.open, i, j) {
      var m :| 0 <= m < |s.open| && s.open[m].l <= i && j <= s.open[m].r;
      assert m != k;
      assert t.open[if m < k then m else m - 1] == s.open[m];
    }
  }

  /** Replacing one call by others that keep to its range. */
  lemma Cut(open: seq<Frame>, k: nat, pieces: seq<Frame>)
    requires k < |open| && Ordered(open) && Ordered(pieces)
    requires forall i :: 0 <= i < |pieces| ==>
      open[k].l <= pieces[i].l && pieces[i].r <= open[k].r && open[k].l <= open[k].r
    ensures Ordered(open[..k] + pieces + open[k + 1..])
  {
    var cut := open[..k] + pieces + open[k + 1..];
    forall i, j | 0 <= i < j < |cut| ensures cut[i].r < cut[j].l {
      var n := |pieces|;
      assert cut[i] == if i < k then open[i] else if i < k + n then pieces[i - k] else open[i - n + 1];
      assert cut[j] == if j < k then open[j] else if j < k + n then pieces[j - k] else open[j - n + 1];
    }
  }

  /** Call k, its partition done, gives way to calls on the two sides of the pivot. */
  lemma HalvesKeep(a: seq<int>, s: Sorter, k: nat, left: Frame, right: Frame, next: nat)
    requires Inv(a, s) && k < |s.open| && s.open[k].phase.Scanning? && s.open[k].phase.more > s.open[k].r
    requires left.phase.Start? && left.l == s.open[k].l && left.r == s.open[k].phase.less - 1
    requires right.phase.Start? && right.l == s.open[k].phase.less + 1 && right.r == s.open[k].r
    requires left.task < next && right.task < next && s.next <= next
    ensures Inv(a, Sorter(s.data, s.open[..k] + [left, right] + s.open[k + 1..], next))
  {
    var open := s.open[..k] + [left, right] + s.open[k + 1..];
    Cut(s.open, k, [left, right]);
    forall i | 0 <= i < |open| ensures FrameOk(s.data, open[i]) && open[i].task < next {
      assert open[i] == if i < k then s.open[i] else if i == k then left else if i == k + 1 then right
        else s.open[i - 1];
    }
    forall i, j | 0 <= i < j < |s.data| && !Pending(open, i, j) ensures s.data[i] <= s.data[j] {
      HalvesCover(s.open, k, left, right, i, j);
    }
  }

  lemma HalvesCover(open: seq<Frame>, k: nat, left: Frame, right: Frame, i: int, j: int)
    requires k < |open|
    ensures Pending(open, i, j) ==>
      (open[k].l <= i && j <= open[k].r) || Pending(open[..k] + [left, right] + open[k + 1..], i, j)
    ensures left.l <= i && j <= left.r ==> Pending(open[..k] + [left, right] + open[k + 1..], i, j)
    ensures right.l <= i && j <= right.r ==> Pending(open[..k] + [left, right] + open[k + 1..], i, j)
  {
    var open' := open[..k] + [left, right] + open[k + 1..];
    assert open'[k] == left && open'[k + 1] == right;
    if m :| 0 <= m < |open| && m != k && open[m].l <= i && j <= open[m].r {
      assert open'[if m < k then m else m + 1] == open[m];
    }
  }

  lemma HalveKeeps(a: seq<int>, s: Sorter, k: nat)
    requires Inv(a, s) && Enabled(s, k) && s.open[k].phase.Scanning? && s.open[k].phase.more > s.open[k].r
    ensures Inv(a, Step(s, k))
  {
    var (halves, next) := Halves(s.open[k], s.open[k].phase.less, s.next);
    assert halves == [halves[0], halves[1]];
    HalvesKeep(a, s, k, halves[0], halves[1], next);
  }

  /** The invariant holds whichever call steps. */
  lemma StepInv(a: seq<int>, s: Sorter, k: nat)
    requires Inv(a, s) && Enabled(s, k)
    ensures Inv(a, Step(s, k))
  {
    var f := s.open[k];
    if f.phase.Start? {
      if f.l < f.r {
        EnterKeeps(a, s, k);
      } else {
        LeaveKeeps(a, s, k);
      }
    } else if f.phase.more <= f.r {
      MoveKeeps(a, s, k);
    } else {
      HalveKeeps(a, s, k);
    }
  }

  lemma {:induction false} RunInv(a: seq<int>, s: Sorter, ks: seq<nat>)
    requires Inv(a, s) && Runs(s, ks)
    ensures Inv(a, After(s, ks))
    decreases |ks|
  {
    if ks != [] {
      StepInv(a, s, ks[0]);
      RunInv(a, Step(s, ks[0]), ks[1..]);
    }
  }

  lemma BeginInv(a: seq<int>)
    ensures Inv(a, Begin(a))
  {
    assert Pending(Begin(a).open, 0, |a| - 1);
    assert forall i, j :: 0 <= i < j < |a| ==> Pending(Begin(a).open, i, j) by {
      assert Begin(a).open[0].l == 0;
    }
  }

  predicate Inside(f: Frame, at: int) {
    f.l <= at <= f.r
  }

  /** In every reachable state the array holds the elements of the input. */
  lemma AlwaysPermutation(a: seq<int>, ks: seq<nat>)
    requires Runs(Begin(a), ks)
    ensures multiset(After(Begin(a), ks).data) == multiset(a) && |After(Begin(a), ks).data| == |a|
  {
    BeginInv(a);
    RunInv(a, Begin(a), ks);
  }

  /** In every reachable state two calls never share a position, so no element is touched by two tasks. */
  lemma RangesDisjoint(a: seq<int>, ks: seq<nat>, i: nat, j: nat)
    requires Runs(Begin(a), ks)
    requires i < |After(Begin(a), ks).open| && j < |After(Begin(a), ks).open| && i != j
    ensures var s := After(Begin(a), ks);
            forall at :: Inside(s.open[i], at) ==> !Inside(s.open[j], at)
  {
    BeginInv(a);
    RunInv(a, Begin(a), ks);
  }

  // The result does not depend on the schedule.

  /** There is one sorted arrangement of given elements. */
  lemma {:induction false} SortedUnique(a: seq<int>, b: seq<int>)
    requires multiset(a) == multiset(b) && Sorted(a) && Sorted(b)
    ensures a == b
  {
    assert |multiset(a)| == |a| && |multiset(b)| == |b|;
    if a != [] {
      var n := |a| - 1;
      LastLargest(a, b);
      LastLargest(b, a);
      Front(a);
      Front(b);
      SortedUnique(a[..n], b[..n]);
      assert a == a[..n] + [a[n]];
      assert b == b[..n] + [b[n]];
    }
  }

  ghost predicate Sorted(a: seq<int>) {
    SortedRange(a, 0, |a| - 1)
  }

  lemma Front(a: seq<int>)
    requires a != []
    ensures multiset(a[..|a| - 1]) == multiset(a) - multiset{a[|a| - 1]}
    ensures Sorted(a) ==> Sorted(a[..|a| - 1])
  {
    assert a == a[..|a| - 1] + [a[|a| - 1]];
  }

  lemma LastLargest(a: seq<int>, b: seq<int>)
    requires multiset(a) == multiset(b) && a != [] && b != [] && Sorted(b)
    ensures a[|a| - 1] <= b[|b| - 1]
  {
    assert a[|a| - 1] in multiset(a);
    assert a[|a| - 1] in b;
  }

  /** Whatever the schedule, a run that leaves no call open leaves the array that the serial sort leaves. */
  lemma ScheduleIrrelevant(a: seq<int>, ks: seq<nat>)
    requires Runs(Begin(a), ks) && After(Begin(a), ks).open == []
    ensures After(Begin(a), ks).data == Sort(a, 0, |a| - 1)
  {
    var end := After(Begin(a), ks);
    BeginInv(a);
    RunInv(a, Begin(a), ks);
    SortSorts(a, 0, |a| - 1);
    SortRearranges(a, 0, |a| - 1);
    assert forall i, j :: 0 <= i < j < |end.data| ==> !Pending(end.open, i, j);
    SortedUnique(end.data, Sort(a, 0, |a| - 1));
  }

  // Every run ends.

  function Square(n: nat): nat {
    if n == 0 then 0 else Square(n - 1) + 2 * n - 1
  }

  lemma {:induction false} SquareIsProduct(n: nat)
    ensures Square(n) == n * n
  {
    if n > 0 {
      SquareIsProduct(n - 1);
      assert n * n == (n - 1) * (n - 1) + 2 * n - 1;
    }
  }

  /** Steps a call and all it leads to can take, at most. */
  function Rank(f: Frame): nat {
    var n := if f.l <= f.r then f.r - f.l + 1 else 0;
    if f.phase.Start? then Square(n) + 3 * n + 1
    else Square(n) + n + 1 + if f.phase.more <= f.r then f.r + 1 - f.phase.more else 0
  }

  /** Each step uses up at least one. */
  lemma StepFalls(a: seq<int>, s: Sorter, k: nat)
    requires Inv(a, s) && Enabled(s, k)
    ensures Sum(Rank, Step(s, k).open) < Sum(Rank, s.open)
  {
    var f := s.open[k];
    assert FrameOk(s.data, f);
    if f.phase.Start? {
      if f.l < f.r {
        SumUpdate(Rank, s.open, k, Step(s, k).open[k]);
      } else {
        assert Step(s, k).open == Without(s.open, k);
        SumWithout(Rank, s.open, k);
      }
    } else if f.phase.more <= f.r {
      SumUpdate(Rank, s.open, k, Step(s, k).open[k]);
    } else {
      HalvingFalls(s.open, k, Halves(f, f.phase.less, s.next).0);
    }
  }

  lemma HalvingFalls(open: seq<Frame>, k: nat, halves: seq<Frame>)
    requires k < |open| && open[k].phase.Scanning? && open[k].phase.more > open[k].r
    requires open[k].l <= open[k].phase.less <= open[k].r
    requires |halves| == 2 && halves[0].phase.Start? && halves[1].phase.Start?
    requires halves[0].l == open[k].l && halves[0].r == open[k].phase.less - 1
    requires halves[1].l == open[k].phase.less + 1 && halves[1].r == open[k].r
    ensures Sum(Rank, open[..k] + halves + open[k + 1..]) < Sum(Rank, open)
  {
    SumSplice(Rank, open, k, halves);
    SumTwo(Rank, halves);
    HalvesRank(open[k], halves[0], halves[1]);
  }

  lemma HalvesRank(f: Frame, left: Frame, right: Frame)
    requires f.phase.Scanning? && f.phase.more > f.r && f.l <= f.phase.less <= f.r
    requires left.phase.Start? && left.l == f.l && left.r == f.phase.less - 1
    requires right.phase.Start? && right.l == f.phase.less + 1 && right.r == f.r
    ensures Rank(left) + Rank(right) < Rank(f)
  {
    HalvesFall(f.phase.less - f.l, f.r - f.phase.less);
  }

  lemma {:induction false} HalvesFall(p: nat, q: nat)
    ensures Square(p) + 2 * p + Square(q) + 2 * q < Square(p + q + 1)
  {
    if q > 0 {
      HalvesFall(p, q - 1);
    }
  }

  lemma {:induction false} RunFalls(a: seq<int>, s: Sorter, ks: seq<nat>)
    requires Inv(a, s) && Runs(s, ks)
    ensures |ks| + Sum(Rank, After(s, ks).open) <= Sum(Rank, s.open)
    decreases |ks|
  {
    if ks != [] {
      StepFalls(a, s, ks[0]);
      StepInv(a, s, ks[0]);
      RunFalls(a, Step(s, ks[0]), ks[1..]);
    }
  }

  /** No schedule of n elements takes more than n*n + 3n + 1 steps. */
  lemma RunsBounded(a: seq<int>, ks: seq<nat>)
    requires Runs(Begin(a), ks)
    ensures |ks| <= |a| * |a| + 3 * |a| + 1
  {
    BeginInv(a);
    RunFalls(a, Begin(a), ks);
    assert Begin(a).open[..0] == [];
    SquareIsProduct(|a|);
  }

  /** While any call is open, the leftmost may step: no schedule gets stuck. */
  lemma NeverStuck(a: seq<int>, ks: seq<nat>)
    requires Runs(Begin(a), ks) && After(Begin(a), ks).open != []
    ensures Enabled(After(Begin(a), ks), 0)
  {
    BeginInv(a);
    RunInv(a, Begin(a), ks);
  }

  // Steps of two tasks commute.

  lemma MovedApart(a: seq<int>, f: Frame, g: Frame)
    requires Moving(|a|, f) && Moving(|a|, g) && f.r < g.l
    ensures Moved(Moved(a, f).0, g) == (Moved(Moved(a, g).0, f).0, Moved(a, g).1)
    ensures Moved(Moved(a, g).0, f).1 == Moved(a, f).1
  {
    assert Moved(Moved(a, f).0, g).0 == Moved(Moved(a, g).0, f).0;
  }

  /** Turns of two partition loops give the same in either order. */
  lemma MovesCommute(a: seq<int>, s: Sorter, i: nat, j: nat)
    requires Inv(a, s) && i < j && Enabled(s, i) && Enabled(s, j)
    requires Moving(|a|, s.open[i]) && Moving(|a|, s.open[j])
    ensures Enabled(Step(s, i), j) && Enabled(Step(s, j), i)
    ensures Step(Step(s, i), j) == Step(Step(s, j), i)
  {
    MovedApart(s.data, s.open[i], s.open[j]);
    var f, g := Moved(s.data, s.open[i]).1, Moved(s.data, s.open[j]).1;
    assert s.open[i := f][j := g] == s.open[j := g][i := f];
  }
}
