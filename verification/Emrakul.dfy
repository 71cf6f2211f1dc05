/** Version 1 as a whole: a master and its workers, one message queue, the shared table. */
module Emrakul {
  import opened Stores
  import opened Cells
  import opened Sums
  import opened Interleaving
  import opened Safety
  import opened Progress
  import opened Solo

  const MASTER_MSGTYPE: nat := 1

  /** The operation field of a message. */
  datatype Body = Ask(op: Op) | Term

  /** The message structure, used for commands and, with type, status and value overwritten, for replies. */
  datatype Message = Message(mtype: nat, body: Body, conn: int, status: int, value: Text)

  /** A client's request: one of the three operations on the table, or a line that was no command. */
  datatype Query = Command(op: Op, conn: int) | Invalid(conn: int)

  /** What is sent back to the client of a connection. */
  datatype Answer = Found(value: Text) | Stored | Deleted | NotFound | Refused | Nothing
  datatype Response = Response(conn: int, answer: Answer)

  datatype MasterPhase = Ready | Awaiting | Stopping(next: nat) | Gone
  datatype Master = Master(phase: MasterPhase, todo: seq<Query>, sent: seq<Response>)

  /** Worker `j` receives messages of type `j + 2`. */
  datatype Worker = Listening | Serving(msg: Message) | Quit

  datatype System = System(queue: seq<Message>, master: Master, workers: seq<Worker>, table: State)

  function WorkerType(j: nat): nat { j + 2 }

  /** `msgrcv` with a type takes the first message of that type. */
  predicate First(queue: seq<Message>, q: nat, mtype: nat) {
    q < |queue| && queue[q].mtype == mtype && forall r :: 0 <= r < q ==> queue[r].mtype != mtype
  }

  /** The text sent for a reply, by its operation and status. */
  function AnswerTo(op: Op, status: int, value: Text): Answer {
    if status != 0 then NotFound
    else match op
         case OpGet(_) => Found(value)
         case OpSet(_, _, _) => Stored
         case _ => Deleted
  }

  function StatusOf(r: Reply): int {
    if r.Fail? then -1 else 0
  }

  /** The data area carries the value to store, and a value found overwrites it. */
  function ValueIn(op: Op): Text {
    if op.OpSet? then op.value else []
  }

  function ValueOut(r: Reply, before: Text): Text {
    if r.Value? then r.value else before
  }

  datatype Event =
    | Send(route: nat, junk: int)
    | Refuse
    | Receive(q: nat)
    | TurnOff
    | PostTerm
    | Join
    | Take(j: nat, q: nat)
    | Toil(j: nat, now: int)
    | Respond(j: nat)

  /** One step of the master or of a worker. The status field of a command is not initialized. */
  ghost predicate Happens(m: Machine, s: System, e: Event, s': System) {
    var ma, wk := s.master, s.workers;
    match e
    case Send(route, junk) =>
      && ma.phase.Ready? && ma.todo != [] && ma.todo[0].Command?
      && s' == s.(queue := s.queue + [Message(route, Ask(ma.todo[0].op), ma.todo[0].conn, junk,
        ValueIn(ma.todo[0].op))],
                  master := ma.(phase := Awaiting))
    case Refuse =>
      && ma.phase.Ready? && ma.todo != [] && ma.todo[0].Invalid?
      && s' == s.(master := ma.(todo := ma.todo[1..], sent := ma.sent + [Response(ma.todo[0].conn, Refused)]))
    case Receive(q) =>
      && ma.phase.Awaiting? && ma.todo != [] && First(s.queue, q, MASTER_MSGTYPE) && s.queue[q].body.Ask?
      && var msg := s.queue[q];
         s' == s.(queue := Without(s.queue, q),
                  master := Master(Ready, ma.todo[1..],
                                   ma.sent + [Response(msg.conn, AnswerTo(msg.body.op, msg.status, msg.value))]))
    case TurnOff =>
      ma.phase.Ready? && s' == s.(master := ma.(phase := Stopping(0)))
    case PostTerm =>
      && ma.phase.Stopping? && ma.phase.next < |wk|
      && exists conn, status, value ::
           s' == s.(queue := s.queue + [Message(WorkerType(ma.phase.next), Term, conn, status, value)],
                    master := ma.(phase := Stopping(ma.phase.next + 1)))
    case Join =>
      && ma.phase.Stopping? && ma.phase.next == |wk| && (forall j :: 0 <= j < |wk| ==> wk[j] == Quit)
      && s' == s.(master := ma.(phase := Gone))
    case Take(j, q) =>
      && j < |wk| && wk[j].Listening? && j < |s.table.procs| && First(s.queue, q, WorkerType(j))
      && var msg := s.queue[q];
         if msg.body.Term? then
           s' == s.(queue := Without(s.queue, q), workers := wk[j := Quit])
         else
           s' == s.(queue := Without(s.queue, q), workers := wk[j := Serving(msg)],
                    table := s.table.(procs := s.table.procs[j := s.table.procs[j].(todo := [msg.body.op])]))
    case Toil(j, now) =>
      && j < |wk| && wk[j].Serving?
      && Steps(m, s.table, j, now, s'.table) && s' == s.(table := s'.table)
    case Respond(j) =>
      && j < |wk| && wk[j].Serving? && j < |s.table.procs|
      && Finished(s.table.procs[j]) && s.table.procs[j].done != []
      && var msg, o := wk[j].msg, s.table.procs[j].done[|s.table.procs[j].done| - 1];
         s' == s.(queue := s.queue + [msg.(mtype := MASTER_MSGTYPE, status := StatusOf(o.reply),
             value := ValueOut(o.reply, msg.value))],
                  workers := wk[j := Listening])
  }

  // The sequential system the clients believe they talk to.

  /** A query run at once on the store. */
  function RunQuery(n: nat, s: Store, q: Query): (Store, Response) {
    match q
    case Invalid(conn) => (s, Response(conn, Refused))
    case Command(op, conn) =>
      if op.OpCollect? then (s, Response(conn, Refused))
      else
        var (after, reply) := Apply(s, n, CommandOf(op, 0));
        (after, Response(conn, AnswerTo(op, StatusOf(reply), ValueOut(reply, ValueIn(op)))))
  }

  /** What a get is told: the value stored under its key, if there is one. */
  lemma GetIsTold(n: nat, s: Store, key: Text, conn: int)
    ensures RunQuery(n, s, Command(OpGet(key), conn))
         == (s, Response(conn, if key in s.live then Found(s.live[key].value) else NotFound))
  {
  }

  /** What a set is told and does: it is refused exactly if its key is new and all cells are spent. */
  lemma SetIsTold(n: nat, s: Store, key: Text, value: Text, ttl: int, conn: int)
    ensures RunQuery(n, s, Command(OpSet(key, value, ttl), conn))
         == if key in s.live then (Store(s.live[key := Entry(value, 0)], s.spent), Response(conn, Stored))
            else if s.spent < n then (Store(s.live[key := Entry(value, 0)], s.spent + 1), Response(conn, Stored))
            else (s, Response(conn, NotFound))
  {
  }

  /** What a delete is told and does: it takes out exactly its key, if that is there. */
  lemma DelIsTold(n: nat, s: Store, key: Text, conn: int)
    ensures RunQuery(n, s, Command(OpDel(key), conn))
         == if key in s.live then (Store(s.live - {key}, s.spent), Response(conn, Deleted))
            else (s, Response(conn, NotFound))
  {
  }

  function StoreAfter(n: nat, qs: seq<Query>): Store {
    if qs == [] then Empty else RunQuery(n, StoreAfter(n, qs[..|qs| - 1]), qs[|qs| - 1]).0
  }

  function Responses(n: nat, qs: seq<Query>): (r: seq<Response>)
    ensures |r| == |qs|
  {
    if qs == [] then []
    else
      var before := qs[..|qs| - 1];
      Responses(n, before) + [RunQuery(n, StoreAfter(n, before), qs[|qs| - 1]).1]
  }

  // The invariant.

  ghost predicate AllListening(s: System) {
    forall j :: 0 <= j < |s.workers| ==> s.workers[j] == Listening
  }

  ghost predicate OnlyServing(s: System, j: nat) {
    && j < |s.workers| && s.workers[j].Serving?
    && forall k :: 0 <= k < |s.workers| && k != j ==> s.workers[k] == Listening
  }

  /** A command on its way to a worker. */
  ghost predicate Commanded(s: System, op: Op, conn: int) {
    && |s.queue| == 1 && s.queue[0].body == Ask(op) && s.queue[0].conn == conn && s.queue[0].value == ValueIn(op)
    && 2 <= s.queue[0].mtype < |s.workers| + 2 && AllListening(s)
  }

  /** A worker at work on the command: about to begin, under way, or with the outcome in hand. */
  ghost predicate Served(m: Machine, s: System, store: Store, op: Op, conn: int, j: nat) {
    && s.queue == [] && OnlyServing(s, j) && j < |s.table.procs|
    && !op.OpCollect? && |s.table.mem.cells| == m.Size()
    && var msg, p := s.workers[j].msg, s.table.procs[j];
       && msg.body == Ask(op) && msg.conn == conn && msg.value == ValueIn(op) && ProcOk(m, p)
       && if p.todo == [] then
            && p.phase.Idle? && p.done != []
            && Achieved(m, s.table.mem.cells, store, op, p.done[|p.done| - 1])
          else
            && p.todo == [op]
            && if p.phase.Idle? then Holds(s.table.mem.cells, store) else Underway(m, s.table.mem.cells, store, p)
  }

  /** The reply on its way to the master. */
  ghost predicate Replied(m: Machine, s: System, store: Store, q: Query)
    requires q.Command?
  {
    && |s.queue| == 1 && AllListening(s)
    && s.queue[0].mtype == MASTER_MSGTYPE && s.queue[0].body == Ask(q.op)
    && Holds(s.table.mem.cells, RunQuery(m.Size(), store, q).0)
    && Response(s.queue[0].conn, AnswerTo(q.op, s.queue[0].status, s.queue[0].value)) == RunQuery(m.Size(), store, q).1
  }

  function OfType(mtype: nat): Message -> nat {
    (msg: Message) => if msg.mtype == mtype then 1 else 0
  }

  /** Only termination messages are in the queue: one for each worker that has been sent one and still
      listens. */
  ghost predicate TermsOut(s: System, next: nat) {
    && next <= |s.workers|
    && (forall j :: 0 <= j < |s.workers| ==> s.workers[j] == Listening || (s.workers[j] == Quit && j < next))
    && (forall q :: 0 <= q < |s.queue| ==> s.queue[q].body == Term && 2 <= s.queue[q].mtype < |s.workers| + 2)
    && (forall j :: 0 <= j < |s.workers| ==>
          Sum(OfType(WorkerType(j)), s.queue) == if j < next && s.workers[j] == Listening then 1 else 0)
  }

  ghost predicate SystemInv(m: Machine, queries: seq<Query>, s: System) {
    var a, cells, n := |s.master.sent|, s.table.mem.cells, m.Size();
    && Inv(m, s.table) && !m.cfg.deadlines && |s.workers| == |s.table.procs|
    && (forall i :: 0 <= i < |queries| ==> queries[i].Command? ==> !queries[i].op.OpCollect?)
    && a <= |queries| && s.master.todo == queries[a..]
    && s.master.sent == Responses(n, queries[..a])
    && (forall j :: 0 <= j < |s.workers| && !s.workers[j].Serving? ==> Finished(s.table.procs[j]))
    && var store := StoreAfter(n, queries[..a]);
       match s.master.phase
       case Ready => s.queue == [] && AllListening(s) && Holds(cells, store)
       case Awaiting =>
         && a < |queries| && queries[a].Command?
         && var q := queries[a];
            || (Commanded(s, q.op, q.conn) && Holds(cells, store))
            || (exists j :: Served(m, s, store, q.op, q.conn, j))
            || Replied(m, s, store, q)
       case Stopping(next) => TermsOut(s, next) && Holds(cells, store)
       case Gone => s.queue == [] && (forall j :: 0 <= j < |s.workers| ==> s.workers[j] == Quit) && Holds(cells, store)
  }

  /** Start-up: empty queue, listening workers, zeroed table, and the clients' queries to come. */
  ghost predicate SystemInit(m: Machine, queries: seq<Query>, s: System) {
    && !m.cfg.deadlines
    && (forall i :: 0 <= i < |queries| ==> queries[i].Command? ==> !queries[i].op.OpCollect?)
    && s.queue == [] && s.master == Master(Ready, queries, [])
    && Init(m, s.table) && (forall j :: 0 <= j < |s.table.procs| ==> s.table.procs[j].todo == [])
    && |s.workers| == |s.table.procs| && AllListening(s)
  }

  /** The routing that is intended: to one of the types the workers listen on. */
  predicate Routed(s: System, e: Event) {
    e.Send? ==> 2 <= e.route < |s.workers| + 2
  }

  lemma InitSystemInv(m: Machine, queries: seq<Query>, s: System)
    requires SystemInit(m, queries, s)
    ensures SystemInv(m, queries, s)
  {
    InitInv(m, s.table);
    BlankIsEmpty(s.table.mem.cells);
    assert queries[..0] == [];
  }

  lemma OneMore(n: nat, queries: seq<Query>, a: nat)
    requires a < |queries|
    ensures var store := StoreAfter(n, queries[..a]);
            && StoreAfter(n, queries[..a + 1]) == RunQuery(n, store, queries[a]).0
            && Responses(n, queries[..a + 1]) == Responses(n, queries[..a]) + [RunQuery(n, store, queries[a]).1]
  {
    assert queries[..a + 1][..a] == queries[..a];
  }

  /** Giving a resting process something to do disturbs nothing. */
  lemma GivenWork(m: Machine, t: State, j: nat, op: Op)
    requires Inv(m, t) && j < |t.procs| && Finished(t.procs[j])
    ensures Inv(m, t.(procs := t.procs[j := t.procs[j].(todo := [op])]))
  {
    var p := t.procs[j].(todo := [op]);
    var t' := t.(procs := t.procs[j := p]);
    forall g | 0 <= g < m.cfg.segments ensures Conserved(m, t', g) {
      assert Conserved(m, t, g);
      SumUpdate(HeldBy(m, g), t.procs, j, p);
    }
    forall i | 0 <= i < m.Size() && Attended(t.procs, i) ensures Attended(t'.procs, i) {
      var k :| 0 <= k < |t.procs| && Attends(t.procs[k].phase, i);
      assert Attends(t'.procs[k].phase, i);
    }
  }

  lemma SendInv(m: Machine, queries: seq<Query>, s: System, e: Event, s': System)
    requires SystemInv(m, queries, s) && Happens(m, s, e, s') && e.Send? && Routed(s, e)
    ensures SystemInv(m, queries, s')
  {
    var a := |s.master.sent|;
    assert Commanded(s', queries[a].op, queries[a].conn);
  }

  lemma RefuseInv(m: Machine, queries: seq<Query>, s: System, e: Event, s': System)
    requires SystemInv(m, queries, s) && Happens(m, s, e, s') && e.Refuse?
    ensures SystemInv(m, queries, s')
  {
    OneMore(m.Size(), queries, |s.master.sent|);
  }

  lemma ReceiveInv(m: Machine, queries: seq<Query>, s: System, e: Event, s': System)
    requires SystemInv(m, queries, s) && Happens(m, s, e, s') && e.Receive?
    ensures SystemInv(m, queries, s')
  {
    OneMore(m.Size(), queries, |s.master.sent|);
  }

  lemma TakeInv(m: Machine, queries: seq<Query>, s: System, e: Event, s': System)
    requires SystemInv(m, queries, s) && Happens(m, s, e, s') && e.Take?
    ensures SystemInv(m, queries, s')
  {
    var j, q := e.j, e.q;
    if s.master.phase.Awaiting? {
      var a := |s.master.sent|;
      var query := queries[a];
      assert Commanded(s, query.op, query.conn);
      GivenWork(m, s.table, j, query.op);
      assert Served(m, s', StoreAfter(m.Size(), queries[..a]), query.op, query.conn, j);
    } else {
      TakeTerm(s, j, q, s');
    }
  }

  lemma TakeTerm(s: System, j: nat, q: nat, s': System)
    requires s.master.phase.Stopping? && TermsOut(s, s.master.phase.next)
    requires j < |s.workers| && s.workers[j].Listening? && First(s.queue, q, WorkerType(j))
    requires s' == s.(queue := Without(s.queue, q), workers := s.workers[j := Quit])
    ensures TermsOut(s', s.master.phase.next)
  {
    SumPart(OfType(WorkerType(j)), s.queue, q);
    forall k | 0 <= k < |s.workers|
      ensures Sum(OfType(WorkerType(k)), s'.queue)
           == if k < s.master.phase.next && s'.workers[k] == Listening then 1 else 0
    {
      SumWithout(OfType(WorkerType(k)), s.queue, q);
    }
  }

  lemma ToilInv(m: Machine, queries: seq<Query>, s: System, e: Event, s': System)
    requires SystemInv(m, queries, s) && Happens(m, s, e, s') && e.Toil?
    ensures SystemInv(m, queries, s')
  {
    var j, now, a := e.j, e.now, |s.master.sent|;
    var store, query := StoreAfter(m.Size(), queries[..a]), queries[a];
    StepInv(m, s.table, j, now, s'.table);
    assert s.master.phase.Awaiting?;
    assert Served(m, s, store, query.op, query.conn, j);
    var p := s.table.procs[j];
    if p.phase.Idle? {
      BeginSolo(m, now, s.table.mem, store, p);
    } else {
      SoloStep(m, now, s.table.mem, store, p);
    }
    assert Served(m, s', store, query.op, query.conn, j);
  }

  lemma RespondInv(m: Machine, queries: seq<Query>, s: System, e: Event, s': System)
    requires SystemInv(m, queries, s) && Happens(m, s, e, s') && e.Respond?
    ensures SystemInv(m, queries, s')
  {
    var j, a := e.j, |s.master.sent|;
    var store, query := StoreAfter(m.Size(), queries[..a]), queries[a];
    assert Served(m, s, store, query.op, query.conn, j);
    assert Replied(m, s', store, query);
  }

  lemma PostTermInv(m: Machine, queries: seq<Query>, s: System, e: Event, s': System)
    requires SystemInv(m, queries, s) && Happens(m, s, e, s') && e.PostTerm?
    ensures SystemInv(m, queries, s')
  {
    PostsTerm(s, s'.queue[|s.queue|], s.master.phase.next);
  }

  lemma PostsTerm(s: System, msg: Message, next: nat)
    requires TermsOut(s, next) && next < |s.workers| && msg.mtype == WorkerType(next) && msg.body == Term
    ensures TermsOut(s.(queue := s.queue + [msg]), next + 1)
  {
    var queue := s.queue + [msg];
    forall k | 0 <= k < |s.workers|
      ensures Sum(OfType(WorkerType(k)), queue) == if k < next + 1 && s.workers[k] == Listening then 1 else 0
    {
      SumConcat(OfType(WorkerType(k)), s.queue, [msg]);
      assert [msg][..0] == [];
    }
  }

  lemma TurnOffInv(m: Machine, queries: seq<Query>, s: System, e: Event, s': System)
    requires SystemInv(m, queries, s) && Happens(m, s, e, s') && e.TurnOff?
    ensures SystemInv(m, queries, s')
  {
  }

  lemma JoinInv(m: Machine, queries: seq<Query>, s: System, e: Event, s': System)
    requires SystemInv(m, queries, s) && Happens(m, s, e, s') && e.Join?
    ensures SystemInv(m, queries, s')
  {
    if s.queue != [] {
      SumPart(OfType(WorkerType(s.queue[0].mtype - 2)), s.queue, 0);
    }
  }

  lemma EventInv(m: Machine, queries: seq<Query>, s: System, e: Event, s': System)
    requires SystemInv(m, queries, s) && Happens(m, s, e, s') && Routed(s, e)
    ensures SystemInv(m, queries, s')
  {
    match e
    case Send(_, _) => SendInv(m, queries, s, e, s');
    case Refuse => RefuseInv(m, queries, s, e, s');
    case Receive(_) => ReceiveInv(m, queries, s, e, s');
    case Take(_, _) => TakeInv(m, queries, s, e, s');
    case Toil(_, _) => ToilInv(m, queries, s, e, s');
    case Respond(_) => RespondInv(m, queries, s, e, s');
    case TurnOff => TurnOffInv(m, queries, s, e, s');
    case PostTerm => PostTermInv(m, queries, s, e, s');
    case Join => JoinInv(m, queries, s, e, s');
  }

  // Main results about runs.

  ghost predicate SystemStep(m: Machine, s: System, s': System) {
    exists e :: Happens(m, s, e, s') && Routed(s, e)
  }

  ghost predicate SystemRun(m: Machine, queries: seq<Query>, run: seq<System>) {
    && run != [] && SystemInit(m, queries, run[0])
    && forall t :: 0 <= t < |run| - 1 ==> SystemStep(m, run[t], run[t + 1])
  }

  lemma SystemRunStep(m: Machine, queries: seq<Query>, run: seq<System>, t: nat) returns (e: Event)
    requires SystemRun(m, queries, run) && t + 1 < |run|
    ensures Happens(m, run[t], e, run[t + 1]) && Routed(run[t], e)
  {
    assert SystemStep(m, run[t], run[t + 1]);
    e :| Happens(m, run[t], e, run[t + 1]) && Routed(run[t], e);
  }

  lemma {:induction false} SystemRunInv(m: Machine, queries: seq<Query>, run: seq<System>, t: nat)
    requires SystemRun(m, queries, run) && t < |run|
    ensures SystemInv(m, queries, run[t])
  {
    if t == 0 {
      InitSystemInv(m, queries, run[0]);
    } else {
      SystemRunInv(m, queries, run, t - 1);
      var e := SystemRunStep(m, queries, run, t - 1);
      EventInv(m, queries, run[t - 1], e, run[t]);
    }
  }

  /** Whatever the routing and the interleaving, the responses sent are those of running the same
      queries one after the other on one map. */
  lemma AnswersAreSequential(m: Machine, queries: seq<Query>, run: seq<System>, t: nat)
    requires SystemRun(m, queries, run) && t < |run|
    ensures var a := |run[t].master.sent|;
            && a <= |queries| && run[t].master.todo == queries[a..]
            && run[t].master.sent == Responses(m.Size(), queries[..a])
  {
    SystemRunInv(m, queries, run, t);
  }

  // The same in the clients' own terms: which responses earlier queries and responses call for.

  /** The value of the last set of a key that was stored, unless a delete of it succeeded later. */
  function LastStored(qs: seq<Query>, rs: seq<Response>, key: Text): Held<Text>
    requires |rs| == |qs|
  {
    if qs == [] then Absent
    else
      var k := |qs| - 1;
      if qs[k].Command? && qs[k].op.OpSet? && qs[k].op.key == key && rs[k].answer == Stored then
        Present(qs[k].op.value)
      else if qs[k].Command? && qs[k].op.OpDel? && qs[k].op.key == key && rs[k].answer == Deleted then Absent
      else LastStored(qs[..k], rs[..k], key)
  }

  /** How many sets of absent keys were stored. */
  function NewlyStored(qs: seq<Query>, rs: seq<Response>): nat
    requires |rs| == |qs|
  {
    if qs == [] then 0
    else
      var k := |qs| - 1;
      NewlyStored(qs[..k], rs[..k])
      + if qs[k].Command? && qs[k].op.OpSet? && rs[k].answer == Stored
           && LastStored(qs[..k], rs[..k], qs[k].op.key) == Absent then 1 else 0
  }

  predicate Expected(n: nat, qs: seq<Query>, rs: seq<Response>, q: Query, r: Response)
    requires |rs| == |qs|
  {
    && r.conn == q.conn
    && match q
       case Invalid(_) => r.answer == Refused
       case Command(OpGet(key), _) =>
         var held := LastStored(qs, rs, key);
         if held.Present? then r.answer == Found(held.value) else r.answer == NotFound
       case Command(OpSet(key, _, _), _) =>
         r.answer == if LastStored(qs, rs, key) == Absent && NewlyStored(qs, rs) >= n then NotFound else Stored
       case Command(OpDel(key), _) =>
         r.answer == if LastStored(qs, rs, key) == Absent then NotFound else Deleted
       case Command(OpCollect, _) => r.answer == Refused
  }

  lemma {:induction false} ToldIsStore(n: nat, qs: seq<Query>, key: Text)
    ensures var (s, rs) := (StoreAfter(n, qs), Responses(n, qs));
            && LastStored(qs, rs, key) == (if key in s.live then Present(s.live[key].value) else Absent)
            && NewlyStored(qs, rs) == s.spent
    decreases |qs|, 1
  {
    if qs != [] {
      var k := |qs| - 1;
      assert Responses(n, qs)[..k] == Responses(n, qs[..k]);
      ToldIsStore(n, qs[..k], key);
      if qs[k].Command? {
        ToldKeeps(n, qs, key);
      }
    }
  }

  lemma ToldKeeps(n: nat, qs: seq<Query>, key: Text)
    requires qs != [] && qs[|qs| - 1].Command?
    requires var (s, rs) := (StoreAfter(n, qs[..|qs| - 1]), Responses(n, qs[..|qs| - 1]));
             && LastStored(qs[..|qs| - 1], rs, key) == (if key in s.live then Present(s.live[key].value) else Absent)
             && NewlyStored(qs[..|qs| - 1], rs) == s.spent
    ensures var (s, rs) := (StoreAfter(n, qs), Responses(n, qs));
            && LastStored(qs, rs, key) == (if key in s.live then Present(s.live[key].value) else Absent)
            && NewlyStored(qs, rs) == s.spent
    decreases |qs|, 0
  {
    var k := |qs| - 1;
    var s, q := StoreAfter(n, qs[..k]), qs[k];
    assert Responses(n, qs)[..k] == Responses(n, qs[..k]);
    match q.op
    case OpGet(x) => GetIsTold(n, s, x, q.conn);
    case OpSet(x, value, ttl) =>
      SetIsTold(n, s, x, value, ttl, q.conn);
      ToldIsStore(n, qs[..k], x);
    case OpDel(x) => DelIsTold(n, s, x, q.conn);
    case OpCollect =>
  }

  /** In every run, each response sent is the one that the queries and responses before it call for: a get is told
      the value last stored, a delete succeeds on what is there, and a set is refused exactly for a new key when as
      many new keys as there are cells have been stored. */
  lemma ResponsesFollow(m: Machine, queries: seq<Query>, run: seq<System>, t: nat, i: nat)
    requires SystemRun(m, queries, run) && t < |run| && i < |run[t].master.sent|
    ensures var sent := run[t].master.sent;
            i < |queries| && Expected(m.Size(), queries[..i], sent[..i], queries[i], sent[i])
  {
    AnswersAreSequential(m, queries, run, t);
    var n, a := m.Size(), |run[t].master.sent|;
    ResponsesSoFar(n, queries[..a], i);
    ResponsesSoFar(n, queries[..a], i + 1);
    assert queries[..a][..i] == queries[..i] && queries[..a][..i + 1] == queries[..i + 1];
    OneMore(n, queries, i);
    assert run[t].master.sent[i] == run[t].master.sent[..i + 1][i];
    ToldAnswers(n, queries[..i], queries[i]);
  }

  lemma ToldAnswers(n: nat, qs: seq<Query>, q: Query)
    ensures Expected(n, qs, Responses(n, qs), q, RunQuery(n, StoreAfter(n, qs), q).1)
  {
    var s := StoreAfter(n, qs);
    match q
    case Invalid(_) =>
    case Command(OpCollect, _) =>
    case Command(OpGet(key), conn) =>
      ToldIsStore(n, qs, key);
      GetIsTold(n, s, key, conn);
    case Command(OpSet(key, value, ttl), conn) =>
      ToldIsStore(n, qs, key);
      SetIsTold(n, s, key, value, ttl, conn);
    case Command(OpDel(key), conn) =>
      ToldIsStore(n, qs, key);
      DelIsTold(n, s, key, conn);
  }

  lemma {:induction false} ResponsesSoFar(n: nat, qs: seq<Query>, i: nat)
    requires i <= |qs|
    ensures Responses(n, qs)[..i] == Responses(n, qs[..i])
  {
    if i < |qs| {
      var k := |qs| - 1;
      ResponsesSoFar(n, qs[..k], i);
      assert qs[..k][..i] == qs[..i];
      assert Responses(n, qs)[..i] == Responses(n, qs[..k])[..i];
    } else {
      assert qs[..i] == qs;
    }
  }

  function IsServing(): Worker -> nat {
    (w: Worker) => if w.Serving? then 1 else 0
  }

  /** Until the master is told to stop, at most one command or reply is in flight or being served. */
  lemma OneInFlight(m: Machine, queries: seq<Query>, run: seq<System>, t: nat)
    requires SystemRun(m, queries, run) && t < |run|
    requires run[t].master.phase.Ready? || run[t].master.phase.Awaiting?
    ensures |run[t].queue| + Sum(IsServing(), run[t].workers) == if run[t].master.phase.Ready? then 0 else 1
  {
    SystemRunInv(m, queries, run, t);
    var s := run[t];
    SumPositive(IsServing(), s.workers);
    if j :| 0 <= j < |s.workers| && s.workers[j].Serving? {
      var resting := s.workers[j := Listening];
      SumUpdate(IsServing(), s.workers, j, Listening);
      SumPositive(IsServing(), resting);
    }
  }

  lemma {:induction false} SpentBounded(n: nat, qs: seq<Query>)
    ensures StoreAfter(n, qs).spent <= n
  {
    if qs != [] {
      SpentBounded(n, qs[..|qs| - 1]);
    }
  }

  /** Once the master is gone every worker has stopped, nothing is left in the queue, and nothing was
      sent to a client since it was told to stop. */
  lemma ShutdownComplete(m: Machine, queries: seq<Query>, run: seq<System>, t: nat, u: nat)
    requires SystemRun(m, queries, run) && t <= u < |run|
    requires run[t].master.phase.Stopping? && run[u].master.phase.Gone?
    ensures run[u].queue == [] && (forall j :: 0 <= j < |run[u].workers| ==> run[u].workers[j] == Quit)
    ensures run[u].master.sent == run[t].master.sent
  {
    SystemRunInv(m, queries, run, u);
    SilentShutdown(m, queries, run, t, u);
  }

  lemma {:induction false} SilentShutdown(m: Machine, queries: seq<Query>, run: seq<System>, t: nat, u: nat)
    requires SystemRun(m, queries, run) && t <= u < |run| && run[t].master.phase.Stopping?
    ensures run[u].master.phase.Stopping? || run[u].master.phase.Gone?
    ensures run[u].master.sent == run[t].master.sent && run[u].table == run[t].table
    decreases u - t
  {
    if t < u {
      SilentShutdown(m, queries, run, t, u - 1);
      SilentStep(m, queries, run, u - 1);
    }
  }

  lemma SilentStep(m: Machine, queries: seq<Query>, run: seq<System>, t: nat)
    requires SystemRun(m, queries, run) && t + 1 < |run|
    requires run[t].master.phase.Stopping? || run[t].master.phase.Gone?
    ensures run[t + 1].master.phase.Stopping? || run[t + 1].master.phase.Gone?
    ensures run[t + 1].master.sent == run[t].master.sent && run[t + 1].table == run[t].table
  {
    SystemRunInv(m, queries, run, t);
    var e := SystemRunStep(m, queries, run, t);
    SilentEvent(m, queries, run[t], e, run[t + 1]);
  }

  lemma SilentEvent(m: Machine, queries: seq<Query>, s: System, e: Event, s': System)
    requires SystemInv(m, queries, s) && Happens(m, s, e, s') && (s.master.phase.Stopping? || s.master.phase.Gone?)
    ensures s'.master.phase.Stopping? || s'.master.phase.Gone?
    ensures s'.master.sent == s.master.sent && s'.table == s.table
  {
    if e.Take? && s.master.phase.Stopping? {
      assert s.queue[e.q].body == Term;
    }
  }

  // No schedule gets stuck or goes on forever.

  function MessageWork(m: Machine): Message -> nat {
    (msg: Message) => if msg.body.Term? || msg.mtype == MASTER_MSGTYPE then 1 else OpWork(m) + 3
  }

  function WorkerWork(): Worker -> nat {
    (w: Worker) => if w.Serving? then 2 else 0
  }

  function MasterWork(m: Machine, ma: Master, workers: nat): nat {
    var unsent := if ma.phase.Awaiting? && ma.todo != [] then |ma.todo| - 1 else |ma.todo|;
    Product(unsent, OpWork(m) + 4)
    + match ma.phase
      case Ready => 2 * workers + 4
      case Awaiting => 2 * workers + 4
      case Stopping(next) => 2 + 2 * if next <= workers then workers - next else 0
      case Gone => 0
  }

  /** Events that can still happen, at most. */
  function SystemWork(m: Machine, s: System): nat {
    MasterWork(m, s.master, |s.workers|) + Sum(MessageWork(m), s.queue) + Sum(WorkerWork(), s.workers)
    + Sum(Effort(m), s.table.procs)
  }

  lemma MasterFalls(m: Machine, s: System, e: Event, s': System)
    requires Happens(m, s, e, s') && (e.Refuse? || e.TurnOff? || e.Join? || e.PostTerm?)
    ensures SystemWork(m, s') < SystemWork(m, s)
  {
    if e.PostTerm? {
      SumConcat(MessageWork(m), s.queue, [s'.queue[|s.queue|]]);
    }
  }

  lemma SendFalls(m: Machine, s: System, e: Event, s': System)
    requires Happens(m, s, e, s') && e.Send?
    ensures SystemWork(m, s') < SystemWork(m, s)
  {
    SumConcat(MessageWork(m), s.queue, [s'.queue[|s.queue|]]);
  }

  lemma ReceiveFalls(m: Machine, s: System, e: Event, s': System)
    requires Happens(m, s, e, s') && e.Receive?
    ensures SystemWork(m, s') < SystemWork(m, s)
  {
    SumWithout(MessageWork(m), s.queue, e.q);
  }

  lemma TakeFalls(m: Machine, queries: seq<Query>, s: System, e: Event, s': System)
    requires SystemInv(m, queries, s) && Happens(m, s, e, s') && e.Take?
    ensures SystemWork(m, s') < SystemWork(m, s)
  {
    var j := e.j;
    SumWithout(MessageWork(m), s.queue, e.q);
    SumUpdate(WorkerWork(), s.workers, j, s'.workers[j]);
    if !s.queue[e.q].body.Term? {
      SumUpdate(Effort(m), s.table.procs, j, s'.table.procs[j]);
      assert Product(1, OpWork(m)) == OpWork(m) + Product(0, OpWork(m));
      assert Effort(m)(s'.table.procs[j]) == OpWork(m);
    }
  }

  lemma ToilFalls(m: Machine, s: System, e: Event, s': System)
    requires Happens(m, s, e, s') && e.Toil?
    ensures SystemWork(m, s') < SystemWork(m, s)
  {
    StepFalls(m, e.now, s.table.mem, s.table.procs[e.j]);
    SumUpdate(Effort(m), s.table.procs, e.j, s'.table.procs[e.j]);
  }

  lemma RespondFalls(m: Machine, s: System, e: Event, s': System)
    requires Happens(m, s, e, s') && e.Respond?
    ensures SystemWork(m, s') < SystemWork(m, s)
  {
    SumConcat(MessageWork(m), s.queue, [s'.queue[|s.queue|]]);
    SumUpdate(WorkerWork(), s.workers, e.j, Listening);
  }

  lemma EventFalls(m: Machine, queries: seq<Query>, s: System, e: Event, s': System)
    requires SystemInv(m, queries, s) && Happens(m, s, e, s')
    ensures SystemWork(m, s') < SystemWork(m, s)
  {
    match e
    case Send(_, _) => SendFalls(m, s, e, s');
    case Receive(_) => ReceiveFalls(m, s, e, s');
    case Take(_, _) => TakeFalls(m, queries, s, e, s');
    case Toil(_, _) => ToilFalls(m, s, e, s');
    case Respond(_) => RespondFalls(m, s, e, s');
    case _ => MasterFalls(m, s, e, s');
  }

  lemma {:induction false} SystemRunsEnd(m: Machine, queries: seq<Query>, run: seq<System>, t: nat)
    requires SystemRun(m, queries, run) && t < |run|
    ensures t + SystemWork(m, run[t]) <= SystemWork(m, run[0])
  {
    if t > 0 {
      SystemRunsEnd(m, queries, run, t - 1);
      SystemRunInv(m, queries, run, t - 1);
      var e := SystemRunStep(m, queries, run, t - 1);
      EventFalls(m, queries, run[t - 1], e, run[t]);
    }
  }

  ghost predicate CanHappen(m: Machine, s: System, e: Event) {
    Routed(s, e) && exists s' :: Happens(m, s, e, s')
  }

  /** A query that waits gets sent or refused. */
  lemma ReadyCanServe(m: Machine, queries: seq<Query>, s: System, route: nat)
    requires SystemInv(m, queries, s) && s.master.phase.Ready? && s.master.todo != []
    requires 2 <= route < |s.workers| + 2
    ensures CanHappen(m, s, Send(route, 0)) || CanHappen(m, s, Refuse)
  {
    var ma := s.master;
    var q := ma.todo[0];
    if q.Command? {
      assert Happens(m, s, Send(route, 0),
                     s.(queue := s.queue + [Message(route, Ask(q.op), q.conn, 0, ValueIn(q.op))],
                       master := ma.(phase := Awaiting)));
    } else {
      assert Happens(m, s, Refuse,
        s.(master := ma.(todo := ma.todo[1..], sent := ma.sent + [Response(q.conn, Refused)])));
    }
  }

  /** Until the master is gone something can always happen, and while queries wait that is to serve them. */
  lemma SystemNeverStuck(m: Machine, queries: seq<Query>, s: System) returns (e: Event)
    requires SystemInv(m, queries, s) && !s.master.phase.Gone?
    ensures CanHappen(m, s, e)
    ensures s.master.phase.Ready? && s.master.todo != [] && s.workers != [] ==> e.Send? || e.Refuse?
    ensures s.master.phase.Awaiting? ==> !e.TurnOff?
  {
    match s.master.phase
    case Ready =>
      if s.master.todo != [] && s.workers != [] {
        ReadyCanServe(m, queries, s, 2);
        e := if CanHappen(m, s, Refuse) then Refuse else Send(2, 0);
      } else {
        e := TurnOff;
        assert Happens(m, s, e, s.(master := s.master.(phase := Stopping(0))));
      }
    case Awaiting => e := ServiceNeverStuck(m, queries, s);
    case Stopping(next) => e := ShutdownNeverStuck(m, queries, s);
  }

  /** A run that nothing can continue has ended in the shutdown: the master is gone, all workers have stopped, the
      queue is empty, and the responses are those of the queries served. */
  lemma SystemEnds(m: Machine, queries: seq<Query>, run: seq<System>, s: System)
    requires SystemRun(m, queries, run) && s == run[|run| - 1]
    requires forall e :: !CanHappen(m, s, e)
    ensures
      && s.master.phase.Gone? && s.queue == [] && (forall j :: 0 <= j < |s.workers| ==> s.workers[j] == Quit)
      && |s.master.sent| <= |queries| && s.master.sent == Responses(m.Size(), queries[..|s.master.sent|])
  {
    SystemRunInv(m, queries, run, |run| - 1);
    if !s.master.phase.Gone? {
      var e := SystemNeverStuck(m, queries, s);
      assert false;
    }
  }

  /** A run that has not been told to stop, and that nothing but this can continue, has answered every query. */
  lemma ServiceEnds(m: Machine, queries: seq<Query>, run: seq<System>, s: System)
    requires SystemRun(m, queries, run) && s == run[|run| - 1] && s.workers != []
    requires s.master.phase.Ready? || s.master.phase.Awaiting?
    requires forall e :: CanHappen(m, s, e) ==> e.TurnOff?
    ensures s.master.todo == [] && s.master.sent == Responses(m.Size(), queries)
  {
    SystemRunInv(m, queries, run, |run| - 1);
    var e := SystemNeverStuck(m, queries, s);
    assert queries[..|queries|] == queries;
  }

  lemma ServiceNeverStuck(m: Machine, queries: seq<Query>, s: System) returns (e: Event)
    requires SystemInv(m, queries, s) && s.master.phase.Awaiting?
    ensures CanHappen(m, s, e)
  {
    var a, n, ma := |s.master.sent|, m.Size(), s.master;
    var store, q := StoreAfter(n, queries[..a]), queries[a];
    if Commanded(s, q.op, q.conn) {
      var j := s.queue[0].mtype - 2;
      e := Take(j, 0);
      assert Happens(m, s, e, s.(queue := Without(s.queue, 0), workers := s.workers[j := Serving(s.queue[0])],
        table := s.table.(procs := s.table.procs[j := s.table.procs[j].(todo := [q.op])])));
    } else if Replied(m, s, store, q) {
      var msg := s.queue[0];
      e := Receive(0);
      assert Happens(m, s, e, s.(queue := Without(s.queue, 0),
        master := Master(Ready, ma.todo[1..],
          ma.sent + [Response(msg.conn, AnswerTo(msg.body.op, msg.status, msg.value))])));
    } else {
      var j :| Served(m, s, store, q.op, q.conn, j);
      e := WorkerNeverStuck(m, queries, s, j);
    }
  }

  lemma WorkerNeverStuck(m: Machine, queries: seq<Query>, s: System, j: nat) returns (e: Event)
    requires SystemInv(m, queries, s) && s.queue == [] && OnlyServing(s, j) && j < |s.table.procs|
    requires Finished(s.table.procs[j]) ==> s.table.procs[j].done != []
    ensures CanHappen(m, s, e)
  {
    var p := s.table.procs[j];
    if Finished(p) {
      var msg, o := s.workers[j].msg, p.done[|p.done| - 1];
      e := Respond(j);
      assert Happens(m, s, e, s.(workers := s.workers[j := Listening],
        queue := s.queue + [msg.(mtype := MASTER_MSGTYPE, status := StatusOf(o.reply),
          value := ValueOut(o.reply, msg.value))]));
    } else {
      var k := NeverStuck(m, s.table, j, 0);
      var move := StepProc(m, 0, s.table.mem, s.table.procs[k]);
      var t' := State(move.mem, s.table.procs[k := move.proc]);
      assert k != j ==> Finished(s.table.procs[k]);
      e := Toil(k, 0);
      assert Steps(m, s.table, k, 0, t');
      assert Happens(m, s, e, s.(table := t'));
    }
  }

  lemma ShutdownNeverStuck(m: Machine, queries: seq<Query>, s: System) returns (e: Event)
    requires SystemInv(m, queries, s) && s.master.phase.Stopping?
    ensures CanHappen(m, s, e)
  {
    var next, wk, ma := s.master.phase.next, s.workers, s.master;
    if next < |wk| {
      e := PostTerm;
      assert Happens(m, s, e, s.(queue := s.queue + [Message(WorkerType(next), Term, 0, 0, [])],
                                 master := ma.(phase := Stopping(next + 1))));
    } else if forall j :: 0 <= j < |wk| ==> wk[j] == Quit {
      e := Join;
      assert Happens(m, s, e, s.(master := ma.(phase := Gone)));
    } else {
      var j :| 0 <= j < |wk| && wk[j] != Quit;
      var q := FirstOfType(s.queue, WorkerType(j));
      e := Take(j, q);
      assert Happens(m, s, e, s.(queue := Without(s.queue, q), workers := wk[j := Quit]));
    }
  }

  lemma {:induction false} FirstOfType(queue: seq<Message>, mtype: nat) returns (q: nat)
    requires Sum(OfType(mtype), queue) > 0
    ensures First(queue, q, mtype)
  {
    var n := |queue| - 1;
    if Sum(OfType(mtype), queue[..n]) > 0 {
      q := FirstOfType(queue[..n], mtype);
    } else {
      q := n;
      forall r | 0 <= r < n ensures queue[r].mtype != mtype {
        SumPart(OfType(mtype), queue[..n], r);
      }
    }
  }

  // The routing that is written.

  /** The master draws the type of a command from 1 up, and 1 is its own: it then receives the command
      back as if it were the reply, with whatever stood in the status field, and the table never sees it. */
  lemma OwnTypeEchoes(m: Machine, queries: seq<Query>, s: System, junk: int, s1: System, e: Event, s2: System)
    requires SystemInv(m, queries, s) && Happens(m, s, Send(1, junk), s1) && Happens(m, s1, e, s2)
    ensures e == Receive(0)
    ensures var q := s.master.todo[0];
            var told := match q.op case OpGet(_) => Found([]) case OpSet(_, _, _) => Stored case _ => Deleted;
            s2.master.sent == s.master.sent + [Response(q.conn, if junk == 0 then told else NotFound)]
    ensures s2.table == s.table && s2.queue == []
  {
  }

  /** A send keeps the invariant, whatever stood in the status field, exactly when it is routed to a worker. */
  lemma RoutingExact(m: Machine, queries: seq<Query>, s: System, route: nat)
    requires SystemInv(m, queries, s) && s.master.phase.Ready? && s.master.todo != [] && s.master.todo[0].Command?
    ensures 2 <= route < |s.workers| + 2 <==>
            forall junk, s' :: Happens(m, s, Send(route, junk), s') ==> SystemInv(m, queries, s')
  {
    forall junk, s' | 2 <= route < |s.workers| + 2 && Happens(m, s, Send(route, junk), s')
      ensures SystemInv(m, queries, s')
    {
      SendInv(m, queries, s, Send(route, junk), s');
    }
    if !(2 <= route < |s.workers| + 2) {
      var q, a := s.master.todo[0], |s.master.sent|;
      var store := StoreAfter(m.Size(), queries[..a]);
      var expected := RunQuery(m.Size(), store, q).1;
      var junk := if expected.answer == NotFound then 0 else -1;
      var s' := s.(queue := s.queue + [Message(route, Ask(q.op), q.conn, junk, ValueIn(q.op))],
                   master := s.master.(phase := Awaiting));
      assert Happens(m, s, Send(route, junk), s');
      assert s'.queue[0].mtype == route && s'.queue[0].status == junk;
      assert s.master.todo[0] == queries[a];
      assert !Replied(m, s', store, q) && !Commanded(s', q.op, q.conn);
      assert !SystemInv(m, queries, s');
    }
  }

  /** With type 1 the client may be told something else than the store's answer. */
  lemma EchoMisleads(m: Machine, queries: seq<Query>, s: System) returns (junk: int, s1: System, s2: System)
    requires SystemInv(m, queries, s) && s.master.phase.Ready? && s.master.todo != [] && s.master.todo[0].Command?
    ensures Happens(m, s, Send(1, junk), s1) && Happens(m, s1, Receive(0), s2)
    ensures var a := |s.master.sent|;
            && s2.master.sent[..a] == s.master.sent && |s2.master.sent| == a + 1
            && s2.master.sent != Responses(m.Size(), queries[..a + 1])
  {
    var q, a := s.master.todo[0], |s.master.sent|;
    var expected := RunQuery(m.Size(), StoreAfter(m.Size(), queries[..a]), q).1;
    junk := if expected.answer == NotFound then 0 else -1;
    s1 := s.(queue := s.queue + [Message(MASTER_MSGTYPE, Ask(q.op), q.conn, junk, ValueIn(q.op))],
             master := s.master.(phase := Awaiting));
    s2 := s.(queue := Without(s1.queue, 0),
             master := Master(Ready, s.master.todo[1..],
                              s.master.sent + [Response(q.conn, AnswerTo(q.op, junk, ValueIn(q.op)))]));
    OneMore(m.Size(), queries, a);
    assert s2.master.sent[a].answer != expected.answer;
  }

  /** With a type that is neither a worker's nor the master's, nothing can happen any more: nobody takes the message,
      and the client waits for ever. */
  lemma UnroutedStops(m: Machine, queries: seq<Query>, s: System, route: nat, junk: int, s1: System, e: Event,
        s2: System)
    requires SystemInv(m, queries, s) && Happens(m, s, Send(route, junk), s1)
    requires route != 1 && !(2 <= route < |s.workers| + 2)
    ensures !Happens(m, s1, e, s2)
  {
  }
}
