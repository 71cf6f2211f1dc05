/** Version 1 in its own form: the message structure, the queue, a worker's dispatch and the master's side. */
module Messages {
  import opened Bytes
  import opened Stores
  import opened Cells
  import opened Records
  import opened Interleaving
  import HashTable
  import E = Emrakul

  datatype Operation = CmdGet | CmdSet | CmdDel | CmdTerm | CmdNone

  /** A message as it lies in the queue. */
  datatype Packet = Packet(mtype: nat, operation: Operation, conn: int, status: int, data: seq<byte>)

  /** The key field of a message, and the value behind it. */
  function KeyIn(data: seq<byte>): Text
    requires |data| == RECORD_SIZE
  {
    CStr(data[..KEY_SIZE])
  }

  function ValueIn(data: seq<byte>): Text
    requires |data| == RECORD_SIZE
  {
    CStr(data[KEY_SIZE + 1..])
  }

  /** Key and value end inside their fields. */
  predicate Terminated(data: seq<byte>) {
    |data| == RECORD_SIZE && 0 in data[..KEY_SIZE] && 0 in data[KEY_SIZE + 1..]
  }

  predicate OnTable(operation: Operation) {
    operation.CmdGet? || operation.CmdSet? || operation.CmdDel?
  }

  /** The operation that a message asks of the table. */
  function OpIn(operation: Operation, data: seq<byte>): Op
    requires OnTable(operation) && |data| == RECORD_SIZE
  {
    match operation
    case CmdGet => OpGet(KeyIn(data))
    case CmdSet => OpSet(KeyIn(data), ValueIn(data), 0)
    case _ => OpDel(KeyIn(data))
  }

  lemma TerminatedFits(cfg: Config, data: seq<byte>)
    requires Terminated(data) && !cfg.deadlines
    ensures FitsKey(KeyIn(data)) && FitsValue(cfg, ValueIn(data))
  {
    StopsShort(data[..KEY_SIZE]);
    StopsShort(data[KEY_SIZE + 1..]);
  }

  lemma StopsShort(field: seq<byte>)
    requires 0 in field
    ensures |CStr(field)| < |field|
  {
  }

  /** What is in a queue, and everything that was ever put into it and taken out of it. */
  datatype History = History(messages: seq<Packet>, posted: seq<Packet>, taken: seq<Packet>)

  class MessageQueue {
    var messages: seq<Packet>
    ghost var posted: seq<Packet>
    ghost var taken: seq<Packet>

    ghost function Past(): History
      reads this
    {
      History(messages, posted, taken)
    }

    constructor ()
      ensures messages == posted == taken == []
    {
      messages, posted, taken := [], [], [];
    }

    method Send(p: Packet)
      modifies this
      ensures messages == old(messages) + [p]
      ensures posted == old(posted) + [p] && taken == old(taken)
    {
      messages := messages + [p];
      posted := posted + [p];
    }

    /** Takes the first message of a type out of the queue, once there is one. */
    method Receive(mtype: nat) returns (p: Packet)
      requires exists i :: 0 <= i < |messages| && messages[i].mtype == mtype
      modifies this
      ensures exists i ::
                && 0 <= i < |old(messages)| && old(messages)[i] == p && p.mtype == mtype
                && (forall k :: 0 <= k < i ==> old(messages)[k].mtype != mtype)
                && messages == old(messages)[..i] + old(messages)[i + 1..]
      ensures taken == old(taken) + [p] && posted == old(posted)
    {
      var i := 0;
      while messages[i].mtype != mtype
        invariant i < |messages| && forall k :: 0 <= k < i ==> messages[k].mtype != mtype
        invariant exists k :: i <= k < |messages| && messages[k].mtype == mtype
        decreases |messages| - i
      {
        i := i + 1;
      }
      p := messages[i];
      messages := messages[..i] + messages[i + 1..];
      taken := taken + [p];
    }
  }

  /** The structure that commands arrive in and that replies are made of by overwriting it. */
  class CommandMessage {
    var mtype: nat
    var operation: Operation
    var targetConnectionId: int
    var status: int
    const data: array<byte>

    constructor (p: Packet)
      requires |p.data| == RECORD_SIZE
      ensures fresh(data) && data.Length == RECORD_SIZE && Contents() == p
    {
      mtype, operation, targetConnectionId, status := p.mtype, p.operation, p.conn, p.status;
      data := new byte[RECORD_SIZE](i requires 0 <= i < RECORD_SIZE => p.data[i]);
      new;
      assert data[..] == p.data;
    }

    function Contents(): Packet
      reads this, data
    {
      Packet(mtype, operation, targetConnectionId, status, data[..])
    }

    /** `strcpy` of a found value into the message. */
    method PutValue(value: Text)
      requires data.Length == RECORD_SIZE && IsText(value) && KEY_SIZE + 1 + |value| < RECORD_SIZE
      requires 0 in data[..KEY_SIZE]
      modifies data
      ensures ValueIn(data[..]) == value && KeyIn(data[..]) == old(KeyIn(data[..])) && Terminated(data[..])
    {
      ghost var before := data[..];
      forall q | 0 <= q < |value| {
        data[KEY_SIZE + 1 + q] := value[q];
      }
      data[KEY_SIZE + 1 + |value|] := 0;
      assert data[..] == Splice(before, KEY_SIZE + 1, value + [0]);
      PutHolds(before, data[..], value);
    }
  }

  lemma PutHolds(before: seq<byte>, after: seq<byte>, value: Text)
    requires |before| == RECORD_SIZE && IsText(value) && KEY_SIZE + 1 + |value| < RECORD_SIZE
    requires 0 in before[..KEY_SIZE] && after == Splice(before, KEY_SIZE + 1, value + [0])
    ensures ValueIn(after) == value && KeyIn(after) == KeyIn(before) && Terminated(after)
  {
    SpliceInside(before, KEY_SIZE + 1, value + [0]);
    SpliceApart(before, KEY_SIZE + 1, value + [0], 0, KEY_SIZE);
    Subslice(after, KEY_SIZE + 1, RECORD_SIZE, 0, |value| + 1);
    FieldHolds(after[KEY_SIZE + 1..], value);
    assert after[..KEY_SIZE] == after[0..KEY_SIZE] && before[..KEY_SIZE] == before[0..KEY_SIZE];
  }

  /** What the master makes of a reply. */
  function Reading(p: Packet): E.Response
    requires |p.data| == RECORD_SIZE
  {
    E.Response(p.conn,
               match p.operation
               case CmdNone => E.Refused
               case CmdTerm => E.Nothing
               case _ => E.AnswerTo(OpIn(p.operation, p.data), p.status, ValueIn(p.data)))
  }

  /** The query that a message carries to a worker. */
  function QueryIn(p: Packet): E.Query
    requires |p.data| == RECORD_SIZE && !p.operation.CmdTerm?
  {
    if p.operation.CmdNone? then E.Invalid(p.conn) else E.Command(OpIn(p.operation, p.data), p.conn)
  }

  /** A message that a worker can work on: what a command names on the table ends inside its fields. */
  predicate Readable(p: Packet) {
    |p.data| == RECORD_SIZE && (OnTable(p.operation) ==> Terminated(p.data))
  }

  /** The answer that a status and the value left in the data area stand for. */
  function Result(operation: Operation, status: int, value: Text): E.Answer
    requires OnTable(operation)
  {
    E.AnswerTo(match operation case CmdGet => OpGet([]) case CmdSet => OpSet([], [], 0)
      case _ => OpDel([]), status, value)
  }

  lemma ResultIs(operation: Operation, data: seq<byte>, status: int, value: Text)
    requires OnTable(operation) && |data| == RECORD_SIZE
    ensures E.AnswerTo(OpIn(operation, data), status, value) == Result(operation, status, value)
  {
  }

  /** A value found is left in the message. */
  method RunGet(msg: CommandMessage, table: HashTable.Table) returns (errorCode: int)
    requires table.Valid() && table.Unlocked() && !table.cfg.deadlines
    requires Terminated(msg.data[..]) && msg.data != table.data && msg.operation == CmdGet
    modifies msg.data, table, table.data
    ensures table.Valid() && table.Unlocked() && |msg.data[..]| == RECORD_SIZE
    ensures (table.store, E.Response(msg.targetConnectionId, Result(CmdGet, errorCode, ValueIn(msg.data[..]))))
         == E.RunQuery(table.cfg.Size(), old(table.store),
           E.Command(old(OpIn(msg.operation, msg.data[..])), msg.targetConnectionId))
  {
    TerminatedFits(table.cfg, msg.data[..]);
    var found;
    errorCode, found := table.Get(KeyIn(msg.data[..]));
    if errorCode == 0 {
      msg.PutValue(found);
    }
  }

  method RunSet(msg: CommandMessage, table: HashTable.Table) returns (errorCode: int)
    requires table.Valid() && table.Unlocked() && !table.cfg.deadlines
    requires Terminated(msg.data[..]) && msg.data != table.data && msg.operation == CmdSet
    modifies msg.data, table, table.data
    ensures table.Valid() && table.Unlocked() && |msg.data[..]| == RECORD_SIZE
    ensures (table.store, E.Response(msg.targetConnectionId, Result(CmdSet, errorCode, ValueIn(msg.data[..]))))
         == E.RunQuery(table.cfg.Size(), old(table.store),
           E.Command(old(OpIn(msg.operation, msg.data[..])), msg.targetConnectionId))
  {
    TerminatedFits(table.cfg, msg.data[..]);
    errorCode := table.Set(KeyIn(msg.data[..]), ValueIn(msg.data[..]), 0, 0);
  }

  method RunDel(msg: CommandMessage, table: HashTable.Table) returns (errorCode: int)
    requires table.Valid() && table.Unlocked() && !table.cfg.deadlines
    requires Terminated(msg.data[..]) && msg.data != table.data && msg.operation == CmdDel
    modifies msg.data, table, table.data
    ensures table.Valid() && table.Unlocked() && |msg.data[..]| == RECORD_SIZE
    ensures (table.store, E.Response(msg.targetConnectionId, Result(CmdDel, errorCode, ValueIn(msg.data[..]))))
         == E.RunQuery(table.cfg.Size(), old(table.store),
           E.Command(old(OpIn(msg.operation, msg.data[..])), msg.targetConnectionId))
  {
    TerminatedFits(table.cfg, msg.data[..]);
    errorCode := table.Del(KeyIn(msg.data[..]));
  }

  /** The table operation that a message asks for. */
  method RunOnTable(msg: CommandMessage, table: HashTable.Table) returns (errorCode: int)
    requires table.Valid() && table.Unlocked() && !table.cfg.deadlines
    requires Terminated(msg.data[..]) && msg.data != table.data && OnTable(msg.operation)
    modifies msg.data, table, table.data
    ensures table.Valid() && table.Unlocked() && |msg.data[..]| == RECORD_SIZE
    ensures (table.store, E.Response(msg.targetConnectionId, Result(msg.operation, errorCode, ValueIn(msg.data[..]))))
         == E.RunQuery(table.cfg.Size(), old(table.store),
           E.Command(old(OpIn(msg.operation, msg.data[..])), msg.targetConnectionId))
  {
    match msg.operation {
      case CmdSet =>
        errorCode := RunSet(msg, table);
      case CmdGet =>
        errorCode := RunGet(msg, table);
      case CmdDel =>
        errorCode := RunDel(msg, table);
    }
  }

  /** A worker's work on one message. A command is run on the table and the message goes back, with type, status
      and value overwritten, saying what the sequential store answers; a termination sends nothing. */
  method DispatchMessage(msg: CommandMessage, table: HashTable.Table, queue: MessageQueue) returns (code: int)
    requires table.Valid() && table.Unlocked() && !table.cfg.deadlines
    requires Readable(msg.Contents()) && msg.data != table.data
    modifies msg, msg.data, table, table.data, queue
    ensures table.Valid() && table.Unlocked()
    ensures code == if old(msg.operation).CmdTerm? then 1 else 0
    ensures queue.taken == old(queue.taken)
    ensures code == 1 ==>
              && queue.messages == old(queue.messages) && queue.posted == old(queue.posted)
              && table.store == old(table.store)
    ensures code == 0 ==>
              && queue.messages == old(queue.messages) + [msg.Contents()]
              && queue.posted == old(queue.posted) + [msg.Contents()]
              && msg.mtype == E.MASTER_MSGTYPE && |msg.data[..]| == RECORD_SIZE
              && (table.store, Reading(msg.Contents()))
                 == E.RunQuery(table.cfg.Size(), old(table.store), old(QueryIn(msg.Contents())))
  {
    msg.mtype := E.MASTER_MSGTYPE;
    var errorCode := -1;
    match msg.operation {
      case CmdTerm =>
        return 1;
      case CmdNone =>
      case _ =>
        errorCode := RunOnTable(msg, table);
        ResultIs(msg.operation, msg.data[..], errorCode, ValueIn(msg.data[..]));
    }
    msg.status := errorCode;
    queue.Send(msg.Contents());
    code := 0;
  }

  /** One turn of a worker's receive loop, when a command to it is all there is in the queue. */
  method Serve(workerId: nat, table: HashTable.Table, queue: MessageQueue, ghost p: Packet)
    requires table.Valid() && table.Unlocked() && !table.cfg.deadlines
    requires queue.messages == [p] && p.mtype == workerId && Readable(p) && !p.operation.CmdTerm?
    modifies table, table.data, queue
    ensures table.Valid() && table.Unlocked() && queue.taken == old(queue.taken) + [p]
    ensures exists reply ::
              && queue.messages == [reply] && queue.posted == old(queue.posted) + [reply]
              && reply.mtype == E.MASTER_MSGTYPE && |reply.data| == RECORD_SIZE
              && (table.store, Reading(reply)) == E.RunQuery(table.cfg.Size(), old(table.store), QueryIn(p))
  {
    assert queue.messages[0].mtype == workerId;
    var taken := queue.Receive(workerId);
    assert taken == p && queue.messages == [];
    var cmdMsg := new CommandMessage(taken);
    var code := DispatchMessage(cmdMsg, table, queue);
    assert queue.messages == [cmdMsg.Contents()];
  }

  // A worker's whole life.

  /** The messages of a type, or those of other types, in their order. */
  function Select(q: seq<Packet>, mtype: nat, same: bool): (r: seq<Packet>)
    ensures forall p :: p in r ==> p in q && (p.mtype == mtype <==> same)
  {
    if q == [] then []
    else if (q[0].mtype == mtype) == same then [q[0]] + Select(q[1..], mtype, same)
    else Select(q[1..], mtype, same)
  }

  lemma {:induction false} SelectConcat(a: seq<Packet>, b: seq<Packet>, mtype: nat, same: bool)
    ensures Select(a + b, mtype, same) == Select(a, mtype, same) + Select(b, mtype, same)
  {
    if a == [] {
      assert a + b == b;
    } else {
      assert (a + b)[1..] == a[1..] + b;
      SelectConcat(a[1..], b, mtype, same);
    }
  }

  lemma {:induction false} SelectNone(q: seq<Packet>, mtype: nat)
    requires forall k :: 0 <= k < |q| ==> q[k].mtype != mtype
    ensures Select(q, mtype, true) == []
  {
    if q != [] {
      SelectNone(q[1..], mtype);
    }
  }

  /** What `Receive` takes out is the first of its type, and nothing else goes. */
  lemma ReceiveSelects(q: seq<Packet>, i: nat, mtype: nat)
    requires i < |q| && q[i].mtype == mtype && forall k :: 0 <= k < i ==> q[k].mtype != mtype
    ensures var rest := q[..i] + q[i + 1..];
            && Select(q, mtype, true) == [q[i]] + Select(rest, mtype, true)
            && Select(rest, mtype, false) == Select(q, mtype, false)
  {
    var a, b := q[..i], q[i + 1..];
    assert q == a + ([q[i]] + b);
    SelectNone(a, mtype);
    SelectConcat(a, [q[i]] + b, mtype, true);
    SelectConcat(a, [q[i]] + b, mtype, false);
    SelectConcat(a, b, mtype, true);
    SelectConcat(a, b, mtype, false);
    assert ([q[i]] + b)[1..] == b;
  }

  lemma {:induction false} SelectSome(q: seq<Packet>, mtype: nat)
    requires Select(q, mtype, true) != []
    ensures exists i :: 0 <= i < |q| && q[i].mtype == mtype
  {
    assert Select(q, mtype, true)[0] in q;
  }

  /** Commands served one after the other: the store they leave and the answers. */
  ghost predicate AllServed(n: nat, before: Store, ps: seq<Packet>, replies: seq<Packet>, after: Store)
    decreases |ps|
  {
    && |ps| == |replies|
    && if ps == [] then before == after
       else
         var k := |ps| - 1;
         && Readable(ps[k]) && !ps[k].operation.CmdTerm? && |replies[k].data| == RECORD_SIZE
         && replies[k].mtype == E.MASTER_MSGTYPE
         && exists middle ::
              && AllServed(n, before, ps[..k], replies[..k], middle)
              && (after, Reading(replies[k])) == E.RunQuery(n, middle, QueryIn(ps[k]))
  }

  lemma ServedMore(n: nat, before: Store, ps: seq<Packet>, replies: seq<Packet>, middle: Store, p: Packet,
        reply: Packet, after: Store)
    requires AllServed(n, before, ps, replies, middle)
    requires Readable(p) && !p.operation.CmdTerm? && |reply.data| == RECORD_SIZE && reply.mtype == E.MASTER_MSGTYPE
    requires (after, Reading(reply)) == E.RunQuery(n, middle, QueryIn(p))
    ensures AllServed(n, before, ps + [p], replies + [reply], after)
  {
    assert (ps + [p])[..|ps|] == ps && (replies + [reply])[..|ps|] == replies;
  }

  /** The worker has taken message `p`, and answered it with `reply` unless it was a termination. */
  ghost predicate TookOne(workerId: nat, before: History, after: History, p: Packet, reply: Packet) {
    var sent := if p.operation.CmdTerm? then [] else [reply];
    && Select(before.messages, workerId, true) == [p] + Select(after.messages, workerId, true)
    && Select(after.messages, workerId, false) == Select(before.messages, workerId, false) + sent
    && after.posted == before.posted + sent
    && after.taken == before.taken + [p]
  }

  method TakeOne(workerId: nat, queue: MessageQueue) returns (taken: Packet)
    requires Select(queue.messages, workerId, true) != []
    modifies queue
    ensures Select(old(queue.messages), workerId, true) == [taken] + Select(queue.messages, workerId, true)
    ensures Select(queue.messages, workerId, false) == Select(old(queue.messages), workerId, false)
    ensures queue.taken == old(queue.taken) + [taken] && queue.posted == old(queue.posted)
  {
    ghost var q := queue.messages;
    SelectSome(q, workerId);
    taken := queue.Receive(workerId);
    ghost var i :| 0 <= i < |q| && q[i] == taken && taken.mtype == workerId
                   && (forall n :: 0 <= n < i ==> q[n].mtype != workerId) && queue.messages == q[..i] + q[i + 1..];
    ReceiveSelects(q, i, workerId);
  }

  /** One turn of the receive loop. */
  method ServeNext(workerId: nat, table: HashTable.Table, queue: MessageQueue)
        returns (errorCode: int, ghost reply: Packet)
    requires table.Valid() && table.Unlocked() && !table.cfg.deadlines && workerId != E.MASTER_MSGTYPE
    requires var mine := Select(queue.messages, workerId, true); mine != [] && Readable(mine[0])
    modifies table, table.data, queue
    ensures table.Valid() && table.Unlocked()
    ensures var p := Select(old(queue.messages), workerId, true)[0];
            && TookOne(workerId, old(queue.Past()), queue.Past(), p, reply)
            && errorCode == (if p.operation.CmdTerm? then 1 else 0)
            && if p.operation.CmdTerm? then table.store == old(table.store)
               else
                 reply.mtype == E.MASTER_MSGTYPE && |reply.data| == RECORD_SIZE
                 && (table.store, Reading(reply)) == E.RunQuery(table.cfg.Size(), old(table.store), QueryIn(p))
  {
    var taken := TakeOne(workerId, queue);
    var cmdMsg := new CommandMessage(taken);
    ghost var rest := queue.messages;
    errorCode := DispatchMessage(cmdMsg, table, queue);
    reply := cmdMsg.Contents();
    if errorCode == 0 {
      ReplyAside(rest, reply, workerId);
    }
  }

  lemma ReplyAside(rest: seq<Packet>, reply: Packet, workerId: nat)
    requires reply.mtype != workerId
    ensures Select(rest + [reply], workerId, true) == Select(rest, workerId, true)
    ensures Select(rest + [reply], workerId, false) == Select(rest, workerId, false) + [reply]
  {
    SelectConcat(rest, [reply], workerId, true);
    SelectConcat(rest, [reply], workerId, false);
    assert [reply][1..] == [];
  }

  /** Of a worker's messages the first t have left the queue, and `replies` have joined it. */
  ghost predicate QueueLeft(workerId: nat, before: seq<Packet>, t: nat, replies: seq<Packet>, after: seq<Packet>) {
    && t <= |Select(before, workerId, true)|
    && Select(after, workerId, true) == Select(before, workerId, true)[t..]
    && Select(after, workerId, false) == Select(before, workerId, false) + replies
  }

  /** Exactly the first t of `mine` have been taken since, and exactly `replies` posted. */
  ghost predicate OnlyThese(mine: seq<Packet>, t: nat, replies: seq<Packet>, before: History, after: History) {
    t <= |mine| && after.taken == before.taken + mine[..t] && after.posted == before.posted + replies
  }

  /** A worker has served the first k of its messages with `replies` and, if it has stopped, has taken the
      termination that came next; nothing else has been taken or posted. */
  ghost predicate Worked(n: nat, workerId: nat, before: History, s: Store, stopped: bool, k: nat,
        replies: seq<Packet>, after: History, s': Store) {
    var mine := Select(before.messages, workerId, true);
    var t := if stopped then k + 1 else k;
    && t <= |mine|
    && (stopped ==> mine[k].operation.CmdTerm?)
    && AllServed(n, s, mine[..k], replies, s')
    && QueueLeft(workerId, before.messages, t, replies, after.messages)
    && OnlyThese(mine, t, replies, before, after)
  }

  lemma WorkedStops(n: nat, workerId: nat, before: History, s: Store, k: nat, replies: seq<Packet>, q: History,
        s': Store, after: History, reply: Packet)
    requires Worked(n, workerId, before, s, false, k, replies, q, s')
    requires k < |Select(before.messages, workerId, true)|
    requires var p := Select(before.messages, workerId, true)[k];
             TookOne(workerId, q, after, p, reply) && p.operation.CmdTerm?
    ensures Worked(n, workerId, before, s, true, k, replies, after, s')
  {
    var mine := Select(before.messages, workerId, true);
    QueuePart(workerId, before.messages, k, replies, q.messages, after.messages, mine[k], []);
    HistoryPart(mine, k, replies, before, q, after, []);
    assert replies + [] == replies;
  }

  lemma WorkedMore(n: nat, workerId: nat, before: History, s: Store, k: nat, replies: seq<Packet>, q: History,
        middle: Store, after: History, reply: Packet, s': Store)
    requires Worked(n, workerId, before, s, false, k, replies, q, middle)
    requires k < |Select(before.messages, workerId, true)|
    requires var p := Select(before.messages, workerId, true)[k];
             && TookOne(workerId, q, after, p, reply) && Readable(p) && !p.operation.CmdTerm?
             && |reply.data| == RECORD_SIZE && reply.mtype == E.MASTER_MSGTYPE
             && (s', Reading(reply)) == E.RunQuery(n, middle, QueryIn(p))
    ensures Worked(n, workerId, before, s, false, k + 1, replies + [reply], after, s')
  {
    var mine := Select(before.messages, workerId, true);
    ServedPart(n, s, mine, k, replies, middle, reply, s');
    QueuePart(workerId, before.messages, k, replies, q.messages, after.messages, mine[k], [reply]);
    HistoryPart(mine, k, replies, before, q, after, [reply]);
  }

  lemma HistoryPart(mine: seq<Packet>, k: nat, replies: seq<Packet>, before: History, q: History, after: History,
        sent: seq<Packet>)
    requires OnlyThese(mine, k, replies, before, q) && k < |mine|
    requires after.taken == q.taken + [mine[k]] && after.posted == q.posted + sent
    ensures OnlyThese(mine, k + 1, replies + sent, before, after)
  {
    assert mine[..k] + [mine[k]] == mine[..k + 1];
    Regroup(before.taken, mine[..k], [mine[k]]);
    Regroup(before.posted, replies, sent);
  }

  lemma ServedPart(n: nat, s: Store, mine: seq<Packet>, k: nat, replies: seq<Packet>, middle: Store, reply: Packet,
        s': Store)
    requires k < |mine| && AllServed(n, s, mine[..k], replies, middle)
    requires Readable(mine[k]) && !mine[k].operation.CmdTerm? && |reply.data| == RECORD_SIZE
      && reply.mtype == E.MASTER_MSGTYPE
    requires (s', Reading(reply)) == E.RunQuery(n, middle, QueryIn(mine[k]))
    ensures AllServed(n, s, mine[..k + 1], replies + [reply], s')
  {
    ServedMore(n, s, mine[..k], replies, middle, mine[k], reply, s');
    assert mine[..k] + [mine[k]] == mine[..k + 1];
  }

  lemma QueuePart(workerId: nat, before: seq<Packet>, k: nat, replies: seq<Packet>, q: seq<Packet>,
        after: seq<Packet>, p: Packet, sent: seq<Packet>)
    requires QueueLeft(workerId, before, k, replies, q)
    requires k < |Select(before, workerId, true)| && p == Select(before, workerId, true)[k]
    requires Select(q, workerId, true) == [p] + Select(after, workerId, true)
    requires Select(after, workerId, false) == Select(q, workerId, false) + sent
    ensures QueueLeft(workerId, before, k + 1, replies + sent, after)
  {
    FirstGone(Select(before, workerId, true), k, Select(after, workerId, true));
    Regroup(Select(before, workerId, false), replies, sent);
  }

  lemma FirstGone(mine: seq<Packet>, k: nat, left: seq<Packet>)
    requires k < |mine| && mine[k..] == [mine[k]] + left
    ensures left == mine[k + 1..]
  {
    assert mine[k..][1..] == left;
  }

  lemma Regroup(a: seq<Packet>, b: seq<Packet>, c: seq<Packet>)
    ensures a + (b + c) == (a + b) + c
  {
  }

  /** A turn of the receive loop after the first k messages. */
  method ServeMore(workerId: nat, table: HashTable.Table, queue: MessageQueue, ghost before: History,
        ghost s: Store, ghost k: nat, ghost replies: seq<Packet>)
      returns (errorCode: int, ghost k': nat, ghost replies': seq<Packet>)
    requires table.Valid() && table.Unlocked() && !table.cfg.deadlines && workerId != E.MASTER_MSGTYPE
    requires Worked(table.cfg.Size(), workerId, before, s, false, k, replies, queue.Past(), table.store)
    requires k < |Select(before.messages, workerId, true)| && Readable(Select(before.messages, workerId, true)[k])
    modifies table, table.data, queue
    ensures table.Valid() && table.Unlocked()
    ensures errorCode == if Select(before.messages, workerId, true)[k].operation.CmdTerm? then 1 else 0
    ensures k' == if errorCode == 0 then k + 1 else k
    ensures Worked(table.cfg.Size(), workerId, before, s, errorCode != 0, k', replies', queue.Past(), table.store)
  {
    ghost var q, middle := queue.Past(), table.store;
    ghost var reply;
    assert Select(before.messages, workerId, true)[k..][0] == Select(before.messages, workerId, true)[k];
    errorCode, reply := ServeNext(workerId, table, queue);
    k', replies' := k, replies;
    if errorCode == 0 {
      WorkedMore(table.cfg.Size(), workerId, before, s, k, replies, q, middle, queue.Past(), reply, table.store);
      k', replies' := k + 1, replies + [reply];
    } else {
      WorkedStops(table.cfg.Size(), workerId, before, s, k, replies, q, middle, queue.Past(), reply);
    }
  }

  /** A worker's receive loop, run on the messages that are there: it serves those of its type in order up to the
      first termination, which it takes, and leaves the others and its replies behind. */
  method Start(workerId: nat, table: HashTable.Table, queue: MessageQueue)
        returns (ghost k: nat, ghost replies: seq<Packet>)
    requires table.Valid() && table.Unlocked() && !table.cfg.deadlines && workerId != E.MASTER_MSGTYPE
    requires var mine := Select(queue.messages, workerId, true);
             && (forall n :: 0 <= n < |mine| ==> Readable(mine[n]))
             && exists n :: 0 <= n < |mine| && mine[n].operation.CmdTerm?
    modifies table, table.data, queue
    ensures table.Valid() && table.Unlocked()
    ensures Worked(table.cfg.Size(), workerId, old(queue.Past()), old(table.store), true, k, replies, queue.Past(),
      table.store)
  {
    ghost var before, s := queue.Past(), table.store;
    ghost var mine := Select(before.messages, workerId, true);
    ghost var last :| 0 <= last < |mine| && mine[last].operation.CmdTerm?;
    k, replies := 0, [];
    var errorCode := 0;
    while errorCode == 0
      invariant table.Valid() && table.Unlocked() && (errorCode == 0 ==> k <= last)
      invariant Worked(table.cfg.Size(), workerId, before, s, errorCode != 0, k, replies, queue.Past(), table.store)
      decreases if errorCode == 0 then 1 else 0, last - k
    {
      ghost var stops := mine[k].operation.CmdTerm?;
      assert stops || k < last;
      errorCode, k, replies := ServeMore(workerId, table, queue, before, s, k, replies);
      assert stops ==> errorCode != 0;
    }
  }

  // The master.

  function TermTo(j: nat, conn: int, status: int, data: seq<byte>): Packet {
    Packet(E.WorkerType(j), CmdTerm, conn, status, data)
  }

  /** Terminations for the workers from `i` to before `n`, in order. */
  function Terms(i: nat, n: nat, conn: int, status: int, data: seq<byte>): seq<Packet>
    decreases n - i
  {
    if i >= n then [] else [TermTo(i, conn, status, data)] + Terms(i + 1, n, conn, status, data)
  }

  lemma {:induction false} TermsGrow(i: nat, n: nat, conn: int, status: int, data: seq<byte>)
    requires i <= n
    ensures Terms(i, n + 1, conn, status, data) == Terms(i, n, conn, status, data) + [TermTo(n, conn, status, data)]
    decreases n - i
  {
    if i < n {
      TermsGrow(i + 1, n, conn, status, data);
    }
  }

  lemma {:induction false} TermsApart(i: nat, n: nat, j: nat, conn: int, status: int, data: seq<byte>)
    requires j < i
    ensures Select(Terms(i, n, conn, status, data), E.WorkerType(j), true) == []
    ensures Select(Terms(i, n, conn, status, data), E.WorkerType(j), false) == Terms(i, n, conn, status, data)
    decreases n - i
  {
    if i < n {
      TermsApart(i + 1, n, j, conn, status, data);
      assert Terms(i, n, conn, status, data)[1..] == Terms(i + 1, n, conn, status, data);
    }
  }

  lemma FirstTerm(i: nat, n: nat, conn: int, status: int, data: seq<byte>)
    requires i < n
    ensures Select(Terms(i, n, conn, status, data), E.WorkerType(i), true) == [TermTo(i, conn, status, data)]
    ensures Select(Terms(i, n, conn, status, data), E.WorkerType(i), false) == Terms(i + 1, n, conn, status, data)
  {
    TermsApart(i + 1, n, i, conn, status, data);
    assert Terms(i, n, conn, status, data)[1..] == Terms(i + 1, n, conn, status, data);
  }

  lemma {:induction false} SelectAll(q: seq<Packet>, mtype: nat)
    requires Select(q, mtype, true) == []
    ensures Select(q, mtype, false) == q
  {
    if q != [] {
      SelectAll(q[1..], mtype);
    }
  }

  class MasterProcess {
    const queue: MessageQueue
    var sent: seq<E.Response>

    constructor (queue: MessageQueue)
      ensures this.queue == queue && sent == []
    {
      this.queue := queue;
      sent := [];
    }

    method RelayCommandToWorker(cmdMsg: Packet)
      modifies queue
      ensures queue.messages == old(queue.messages) + [cmdMsg]
      ensures queue.posted == old(queue.posted) + [cmdMsg] && queue.taken == old(queue.taken)
    {
      queue.Send(cmdMsg);
    }

    /** The client is told what the reply's operation and status call for. */
    method ProcessResponseFromWorker(responseMsg: Packet)
      requires |responseMsg.data| == RECORD_SIZE
      modifies this`sent
      ensures sent == old(sent) + [Reading(responseMsg)]
      ensures OnTable(responseMsg.operation) ==>
                var told := match responseMsg.operation case CmdGet => E.Found(CStr(responseMsg.data[64..]))
                            case CmdSet => E.Stored case _ => E.Deleted;
                Reading(responseMsg)
                == E.Response(responseMsg.conn, if responseMsg.status == 0 then told else E.NotFound)
    {
      var response := E.Nothing;
      var errCode := responseMsg.status;
      match responseMsg.operation {
        case CmdGet =>
          if errCode == 0 {
            response := E.Found(ValueIn(responseMsg.data));
          } else {
            response := E.NotFound;
          }
        case CmdSet =>
          if errCode == 0 {
            response := E.Stored;
          } else {
            response := E.NotFound;
          }
        case CmdDel =>
          if errCode == 0 {
            response := E.Deleted;
          } else {
            response := E.NotFound;
          }
        case CmdNone =>
          response := E.Refused;
        case CmdTerm =>
      }
      sent := sent + [E.Response(responseMsg.conn, response)];
    }

    /** One query from a client, sent with type `route`. A worker's type is served by that worker while the master
        is blocked, and the client gets the sequential store's answer. The master's own type comes straight back,
        and the client gets what the uninitialized status happens to say. */
    method ExecuteQuery(operation: Operation, params: seq<byte>, conn: int, route: nat, status: int,
          table: HashTable.Table)
      requires table.Valid() && table.Unlocked() && !table.cfg.deadlines
      requires Terminated(params) && !operation.CmdTerm? && queue.messages == [] && route >= E.MASTER_MSGTYPE
      modifies this`sent, queue, table, table.data
      ensures table.Valid() && table.Unlocked() && queue.messages == []
      ensures operation.CmdNone? ==> queue.posted == old(queue.posted)
      ensures !operation.CmdNone? ==>
                old(queue.posted) + [Packet(route, operation, conn, status, params)] <= queue.posted
      ensures |sent| == |old(sent)| + 1 && sent[..|old(sent)|] == old(sent)
      ensures operation.CmdNone? || route > E.MASTER_MSGTYPE ==>
                (table.store, sent[|old(sent)|])
                == E.RunQuery(table.cfg.Size(), old(table.store),
                  QueryIn(Packet(route, operation, conn, status, params)))
      ensures OnTable(operation) && route == E.MASTER_MSGTYPE ==>
                && table.store == old(table.store)
                && var told := match operation case CmdGet => E.Found(ValueIn(params)) case CmdSet => E.Stored
                               case _ => E.Deleted;
                   sent[|old(sent)|] == E.Response(conn, if status == 0 then told else E.NotFound)
    {
      if operation.CmdNone? {
        sent := sent + [E.Response(conn, E.Refused)];
        return;
      }
      var commMsg := Packet(route, operation, conn, status, params);
      RelayCommandToWorker(commMsg);
      if route != E.MASTER_MSGTYPE {
        Serve(route, table, queue, commMsg);
      }

      assert queue.messages[0].mtype == E.MASTER_MSGTYPE;
      var reply := queue.Receive(E.MASTER_MSGTYPE);
      ProcessResponseFromWorker(reply);
    }

    /** Posts one termination to every worker's own type. */
    method PostTerminations(workers: nat, conn: int, status: int, data: seq<byte>)
      modifies queue
      ensures queue.messages == old(queue.messages) + Terms(0, workers, conn, status, data)
      ensures queue.posted == old(queue.posted) + Terms(0, workers, conn, status, data)
      ensures queue.taken == old(queue.taken)
    {
      for i := 0 to workers
        invariant queue.messages == old(queue.messages) + Terms(0, i, conn, status, data)
        invariant queue.posted == old(queue.posted) + Terms(0, i, conn, status, data)
        invariant queue.taken == old(queue.taken)
      {
        RelayCommandToWorker(Packet(i + 2, CmdTerm, conn, status, data));
        TermsGrow(0, i, conn, status, data);
      }
    }

    /** Waits for the workers: each takes its own termination, which is all it takes, and stops without a reply. */
    method WaitForWorkers(workers: nat, conn: int, status: int, data: seq<byte>, table: HashTable.Table)
      requires table.Valid() && table.Unlocked() && !table.cfg.deadlines && |data| == RECORD_SIZE
      requires queue.messages == Terms(0, workers, conn, status, data)
      modifies queue, table, table.data
      ensures table.Valid() && table.Unlocked() && table.store == old(table.store)
      ensures queue.messages == [] && queue.posted == old(queue.posted)
      ensures queue.taken == old(queue.taken) + Terms(0, workers, conn, status, data)
    {
      for i := 0 to workers
        invariant queue.messages == Terms(i, workers, conn, status, data)
        invariant queue.taken == old(queue.taken) + Terms(0, i, conn, status, data)
        invariant queue.posted == old(queue.posted)
        invariant table.Valid() && table.Unlocked() && table.store == old(table.store)
      {
        FirstTerm(i, workers, conn, status, data);
        ghost var k, replies := Start(E.WorkerType(i), table, queue);
        assert k == 0 && replies == [];
        SelectAll(queue.messages, E.WorkerType(i));
        TermsGrow(0, i, conn, status, data);
      }
    }

    /** Exactly one termination per worker is posted, each to its worker's own type; the workers take exactly these
        and answer nothing, and nothing is left in the queue. */
    method ShutdownWorkers(workers: nat, conn: int, status: int, data: seq<byte>, table: HashTable.Table)
      requires table.Valid() && table.Unlocked() && !table.cfg.deadlines
      requires queue.messages == [] && |data| == RECORD_SIZE
      modifies queue, table, table.data
      ensures table.Valid() && table.Unlocked() && table.store == old(table.store) && queue.messages == []
      ensures queue.posted == old(queue.posted) + Terms(0, workers, conn, status, data)
      ensures queue.taken == old(queue.taken) + Terms(0, workers, conn, status, data)
    {
      PostTerminations(workers, conn, status, data);
      WaitForWorkers(workers, conn, status, data, table);
    }
  }

  // A client of the whole.

  /** A set, a get, a delete and a get of one key, run on the store. */
  lemma OneKey(n: nat, s: Store, key: Text, value: Text, conn: int)
    ensures var (s1, r1) := E.RunQuery(n, s, E.Command(OpSet(key, value, 0), conn));
            var (s2, r2) := E.RunQuery(n, s1, E.Command(OpGet(key), conn));
            var (s3, r3) := E.RunQuery(n, s2, E.Command(OpDel(key), conn));
            var r4 := E.RunQuery(n, s3, E.Command(OpGet(key), conn)).1;
            var stored := key in s.live || s.spent < n;
            && r1 == E.Response(conn, if stored then E.Stored else E.NotFound)
            && r2 == E.Response(conn, if stored then E.Found(value) else E.NotFound)
            && r3 == E.Response(conn, if stored then E.Deleted else E.NotFound)
            && r4 == E.Response(conn, E.NotFound)
  {
    E.SetIsTold(n, s, key, value, 0, conn);
    var s1 := E.RunQuery(n, s, E.Command(OpSet(key, value, 0), conn)).0;
    E.GetIsTold(n, s1, key, conn);
    E.DelIsTold(n, s1, key, conn);
    E.GetIsTold(n, E.RunQuery(n, s1, E.Command(OpDel(key), conn)).0, key, conn);
  }

  /** One command of a client, sent to some worker. */
  method SendCommand(master: MasterProcess, operation: Operation, params: seq<byte>, conn: int, route: nat,
        status: int, table: HashTable.Table) returns (ghost told: E.Response)
    requires table.Valid() && table.Unlocked() && !table.cfg.deadlines && master.queue.messages == []
    requires Terminated(params) && OnTable(operation) && route > 1
    modifies master`sent, master.queue, table, table.data
    ensures table.Valid() && table.Unlocked() && master.queue.messages == []
    ensures master.sent == old(master.sent) + [told]
    ensures (table.store, told)
         == E.RunQuery(table.cfg.Size(), old(table.store), E.Command(OpIn(operation, params), conn))
  {
    master.ExecuteQuery(operation, params, conn, route, status, table);
    told := master.sent[|master.sent| - 1];
  }

  /** A client that sends a set, a get, a delete and a get with one key field, each to any worker: through buffers,
      queue and records it is told the string in its own buffer's value field, and after the delete nothing. */
  method OneKeySession(master: MasterProcess, setParams: seq<byte>, params: seq<byte>, conn: int, routes: seq<nat>,
        status: seq<int>, table: HashTable.Table)
    requires table.Valid() && table.Unlocked() && !table.cfg.deadlines && master.queue.messages == []
    requires Terminated(setParams) && Terminated(params) && CStr(setParams[..63]) == CStr(params[..63])
    requires |routes| == |status| == 4 && forall i :: 0 <= i < 4 ==> routes[i] > 1
    modifies master`sent, master.queue, table, table.data
    ensures table.Valid() && table.Unlocked() && master.queue.messages == []
    ensures var stored := CStr(params[..63]) in old(table.store).live || old(table.store).spent < table.cfg.Size();
            master.sent == old(master.sent)
              + [E.Response(conn, if stored then E.Stored else E.NotFound)]
              + [E.Response(conn, if stored then E.Found(CStr(setParams[64..])) else E.NotFound)]
              + [E.Response(conn, if stored then E.Deleted else E.NotFound)]
              + [E.Response(conn, E.NotFound)]
  {
    OneKey(table.cfg.Size(), table.store, KeyIn(params), ValueIn(setParams), conn);
    ghost var told := SendCommand(master, CmdSet, setParams, conn, routes[0], status[0], table);
    told := SendCommand(master, CmdGet, params, conn, routes[1], status[1], table);
    told := SendCommand(master, CmdDel, params, conn, routes[2], status[2], table);
    told := SendCommand(master, CmdGet, params, conn, routes[3], status[3], table);
  }
}
