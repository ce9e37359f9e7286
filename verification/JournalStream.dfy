/** The stream protocol as a system of steps: one agent process, any number of connections old and new, one hub. */
module JournalStream {
  import opened Wrappers
  import opened Sequences
  import opened Journal

  datatype Batch = Batch(id: nat, items: seq<Item>)

  datatype Ack = Ack(id: nat, ok: bool)

  /** What a connection's handler on the hub is doing with the batch it took last. */
  datatype Handling = NoBatch | Received(b: Batch) | Settled(b: Batch, ok: bool)

  /** One WebSocket: the cursor handed out in hello_ack once it was read, batches and acks on the wire, and the agent's
      queue of acks not yet looked at. */
  datatype Conn = Conn(hello: Option<nat>, toHub: seq<Batch>, handling: Handling, toAgent: seq<Ack>, queue: seq<Ack>)

  /** The agent's stream: the follower at `pos` has collected `batch` since `cursor`, the last acknowledged position. */
  datatype Agent =
    | Offline
    | Connecting(k: nat)
    | Streaming(k: nat, cursor: nat, pos: nat, batch: seq<Item>, waiting: Option<nat>)

  /** `high` is bookkeeping for the proof: the furthest journal position ever committed. */
  datatype System = System(
    j: seq<Entry>, rows: seq<Record>, cursor: nat, conns: seq<Conn>, agent: Agent, nextId: nat, high: nat)

  datatype Action =
    | Log(e: Entry)              // the journal grows
    | Connect                    // a new socket
    | HandOut(k: nat)            // the hub reads its cursor for hello_ack
    | StartFollower              // hello_ack arrives
    | ReadEntry                  // one journal line
    | Send                       // batch full, or its window over
    | Deliver                    // an ack reaches the agent's queue
    | TakeAck                    // the agent looks at the oldest queued ack
    | Restart                    // timeout, follower exit or any other failure: replay from the last acked cursor
    | Disconnect                 // the agent loses its socket; the hub may not know yet
    | HubReceive(k: nat)         // a handler takes a batch, on a live or a dead socket
    | HubCommit(k: nat)          // its transaction commits, or validation refuses the batch
    | HubFail(k: nat)            // its transaction fails
    | HubAck(k: nat)             // it sends the ack
    | HubClose(k: nat)           // the handler ends; whatever was still on the wire is lost

  function SetConn(s: System, k: nat, c: Conn): System
    requires k < |s.conns|
  {
    s.(conns := s.conns[k := c])
  }

  function Restarted(a: Agent): Agent
    requires a.Streaming?
  {
    Streaming(a.k, a.cursor, a.cursor, [], None)
  }

  function Max(a: nat, b: nat): nat {
    if a > b then a else b
  }

  /** An action that is not possible in a state changes nothing. */
  function Do(s: System, a: Action): System {
    match a
    case Log(e) => s.(j := s.j + [e])
    case Connect =>
      if s.agent.Offline? then
        s.(conns := s.conns + [Conn(None, [], NoBatch, [], [])], agent := Connecting(|s.conns|))
      else s
    case HandOut(k) =>
      if k < |s.conns| && s.conns[k].hello.None? then SetConn(s, k, s.conns[k].(hello := Some(s.cursor))) else s
    case StartFollower =>
      if s.agent.Connecting? && s.agent.k < |s.conns| && s.conns[s.agent.k].hello.Some? then
        var c := s.conns[s.agent.k].hello.value;
        s.(agent := Streaming(s.agent.k, c, c, [], None))
      else s
    case ReadEntry =>
      if s.agent.Streaming? && s.agent.waiting.None? && |s.agent.batch| < 50 && s.agent.pos < |s.j| then
        var e := s.j[s.agent.pos];
        s.(agent := s.agent.(pos := s.agent.pos + 1,
                             batch := s.agent.batch + if e.usable then [Item(s.agent.pos + 1, e)] else []))
      else s
    case Send =>
      if s.agent.Streaming? && s.agent.waiting.None? && s.agent.batch != [] && s.agent.k < |s.conns| then
        var c := s.conns[s.agent.k];
        SetConn(s, s.agent.k, c.(toHub := c.toHub + [Batch(s.nextId, s.agent.batch)]))
          .(agent := s.agent.(waiting := Some(s.nextId)), nextId := s.nextId + 1)
      else s
    case Deliver =>
      if s.agent.Streaming? && s.agent.k < |s.conns| && s.conns[s.agent.k].toAgent != [] then
        var c := s.conns[s.agent.k];
        SetConn(s, s.agent.k, c.(toAgent := c.toAgent[1..], queue := c.queue + [c.toAgent[0]]))
      else s
    case TakeAck =>
      if s.agent.Streaming? && s.agent.waiting.Some? && s.agent.k < |s.conns| && s.conns[s.agent.k].queue != [] then
        var c := s.conns[s.agent.k];
        var ack := c.queue[0];
        SetConn(s, s.agent.k, c.(queue := c.queue[1..]))
          .(agent := if ack.id == s.agent.waiting.value && ack.ok && s.agent.batch != [] then
                       s.agent.(cursor := Last(s.agent.batch), batch := [], waiting := None)
                     else Restarted(s.agent))
      else s
    case Restart => if s.agent.Streaming? then s.(agent := Restarted(s.agent)) else s
    case Disconnect => s.(agent := Offline)
    case HubReceive(k) =>
      if k < |s.conns| && s.conns[k].handling.NoBatch? && s.conns[k].toHub != [] then
        var c := s.conns[k];
        SetConn(s, k, c.(toHub := c.toHub[1..], handling := Received(c.toHub[0])))
      else s
    case HubCommit(k) =>
      if k < |s.conns| && s.conns[k].handling.Received? then
        var b := s.conns[k].handling.b;
        if Acceptable(b.items) then
          SetConn(s, k, s.conns[k].(handling := Settled(b, true)))
            .(rows := InsertAll(s.rows, ItemRows(b.items)), cursor := Last(b.items), high := Max(s.high, Last(b.items)))
        else SetConn(s, k, s.conns[k].(handling := Settled(b, false)))
      else s
    case HubFail(k) =>
      if k < |s.conns| && s.conns[k].handling.Received? then
        SetConn(s, k, s.conns[k].(handling := Settled(s.conns[k].handling.b, false)))
      else s
    case HubAck(k) =>
      if k < |s.conns| && s.conns[k].handling.Settled? then
        var c := s.conns[k];
        SetConn(s, k, c.(handling := NoBatch, toAgent := c.toAgent + [Ack(c.handling.b.id, c.handling.ok)]))
      else s
    case HubClose(k) =>
      if k < |s.conns| then SetConn(s, k, s.conns[k].(toHub := [], handling := NoBatch, toAgent := [])) else s
  }

  function Exec(s: System, schedule: seq<Action>): System {
    if schedule == [] then s
    else Do(Exec(s, schedule[..|schedule| - 1]), schedule[|schedule| - 1])
  }

  /** The hub holds a cursor, and its table holds exactly what the journal says up to there. */
  ghost predicate Start(s: System) {
    && s.conns == [] && s.agent.Offline? && s.cursor == s.high <= |s.j|
    && s.rows == InsertAll([], RowsOf(s.j, 0, s.high))
  }

  // ---------- the invariant ----------

  /** A batch is a contiguous piece of the usable journal that starts inside the stored prefix. */
  ghost predicate Replays(s: System, items: seq<Item>) {
    items != [] && exists a, z :: StartsInside(s, items, a, z)
  }

  ghost predicate StartsInside(s: System, items: seq<Item>, a: nat, z: nat) {
    a <= s.high && a <= z <= |s.j| && items == Items(s.j, a, z)
  }

  /** Batch b may be the one the agent waits for only if it holds what the agent collected. */
  ghost predicate Matches(s: System, b: Batch) {
    && b.id < s.nextId
    && Replays(s, b.items)
    && (s.agent.Streaming? && s.agent.waiting == Some(b.id) ==> b.items == s.agent.batch)
  }

  /** A positive ack for the awaited batch means its entries are stored. */
  ghost predicate Honest(s: System, a: Ack) {
    && a.id < s.nextId
    && (a.ok && s.agent.Streaming? && s.agent.waiting == Some(a.id) && s.agent.batch != []
      ==> Last(s.agent.batch) <= s.high)
  }

  ghost predicate ConnInv(s: System, c: Conn) {
    && (c.hello.Some? ==> c.hello.value <= s.high)
    && (forall b :: b in c.toHub ==> Matches(s, b))
    && (c.handling.Received? ==> Matches(s, c.handling.b))
    && (c.handling.Settled? ==> Matches(s, c.handling.b) && Honest(s, Ack(c.handling.b.id, c.handling.ok)))
    && (forall a :: a in c.toAgent ==> Honest(s, a))
    && (forall a :: a in c.queue ==> Honest(s, a))
  }

  ghost predicate AgentInv(s: System) {
    s.agent.Streaming? ==>
      && s.agent.cursor <= s.high && s.agent.cursor <= s.agent.pos <= |s.j|
      && s.agent.batch == Items(s.j, s.agent.cursor, s.agent.pos)
      && (s.agent.waiting.Some? ==> s.agent.batch != [] && s.agent.waiting.value < s.nextId)
  }

  ghost predicate TableInv(s: System) {
    && s.cursor <= s.high <= |s.j|
    && Filter(Keyed, s.rows) == Stored(s.j, s.high)
    && (forall r :: r in s.rows ==> r in RowsOf(s.j, 0, s.high))
    && (forall r :: r in RowsOf(s.j, 0, s.high) && !Keyed(r) ==> r in s.rows)
  }

  ghost predicate Inv(s: System) {
    TableInv(s) && AgentInv(s) && forall k :: 0 <= k < |s.conns| ==> ConnInv(s, s.conns[k])
  }

  // ---------- what a step of one part leaves true of the others ----------

  ghost predicate Grows(s: System, s': System) {
    s.j <= s'.j && s.high <= s'.high && s.nextId <= s'.nextId
  }

  /** The agent awaits what it awaited before, or nothing, or a batch with a new number. */
  ghost predicate SameWait(s: System, s': System) {
    || s'.agent == s.agent
    || !s'.agent.Streaming? || s'.agent.waiting.None? || s'.agent.waiting.value >= s.nextId
  }

  lemma ReplaysStays(s: System, s': System, items: seq<Item>)
    requires Grows(s, s') && Replays(s, items)
    ensures Replays(s', items)
  {
    var a, z :| StartsInside(s, items, a, z);
    JournalGrows(s.j, s'.j, a, z);
    assert StartsInside(s', items, a, z);
  }

  lemma MatchesStays(s: System, s': System, b: Batch)
    requires Grows(s, s') && SameWait(s, s') && Matches(s, b)
    ensures Matches(s', b)
  {
    ReplaysStays(s, s', b.items);
  }

  lemma ConnStays(s: System, s': System, c: Conn)
    requires Grows(s, s') && SameWait(s, s') && ConnInv(s, c)
    ensures ConnInv(s', c)
  {
    hide Replays;
    forall b | Matches(s, b) { MatchesStays(s, s', b); }
  }

  lemma OthersStay(s: System, s': System, k: nat)
    requires Inv(s) && Grows(s, s') && SameWait(s, s')
    requires |s'.conns| == |s.conns| && forall i :: 0 <= i < |s.conns| && i != k ==> s'.conns[i] == s.conns[i]
    requires k < |s.conns| ==> ConnInv(s', s'.conns[k])
    ensures forall i :: 0 <= i < |s'.conns| ==> ConnInv(s', s'.conns[i])
  {
    hide ConnInv, TableInv, AgentInv, Grows, SameWait;
    forall i | 0 <= i < |s'.conns|
      ensures ConnInv(s', s'.conns[i])
    {
      if i != k { ConnStays(s, s', s.conns[i]); }
    }
  }

  lemma LogKeepsInv(s: System, e: Entry)
    requires Inv(s)
    ensures Inv(Do(s, Log(e)))
  {
    var s' := Do(s, Log(e));
    OthersStay(s, s', |s.conns|);
    JournalGrows(s.j, s'.j, 0, s.high);
    if s.agent.Streaming? {
      JournalGrows(s.j, s'.j, s.agent.cursor, s.agent.pos);
    }
  }

  lemma ConnectKeepsInv(s: System)
    requires Inv(s)
    ensures Inv(Do(s, Connect))
  {
    var s' := Do(s, Connect);
    if s' != s {
      forall i | 0 <= i < |s'.conns|
        ensures ConnInv(s', s'.conns[i])
      {
        if i < |s.conns| { ConnStays(s, s', s.conns[i]); }
      }
    }
  }

  /** Steps of the agent that end with nothing awaited. */
  lemma AgentStepKeepsInv(s: System, a: Action)
    requires Inv(s) && (a.StartFollower? || a.ReadEntry? || a.Restart? || a.Disconnect?)
    ensures Inv(Do(s, a))
  {
    hide ConnInv;
    var s' := Do(s, a);
    if a.StartFollower? && s.agent.Connecting? && s.agent.k < |s.conns| && s.conns[s.agent.k].hello.Some? {
      HelloInside(s, s.agent.k);
    }
    if s' != s {
      OthersStay(s, s', |s.conns|);
    }
  }

  lemma HelloInside(s: System, k: nat)
    requires Inv(s) && k < |s.conns| && s.conns[k].hello.Some?
    ensures s.conns[k].hello.value <= s.high
  {
    assert ConnInv(s, s.conns[k]);
  }

  lemma SendKeepsInv(s: System)
    requires Inv(s)
    ensures Inv(Do(s, Send))
  {
    var s' := Do(s, Send);
    if s' != s {
      var k := s.agent.k;
      assert ConnInv(s, s.conns[k]);
      ConnStays(s, s', s.conns[k]);
      var b := Batch(s.nextId, s.agent.batch);
      assert StartsInside(s', b.items, s.agent.cursor, s.agent.pos);
      assert Matches(s', b);
      OthersStay(s, s', k);
    }
  }

  lemma DeliverKeepsInv(s: System)
    requires Inv(s)
    ensures Inv(Do(s, Deliver))
  {
    var s' := Do(s, Deliver);
    if s' != s {
      var k := s.agent.k;
      assert ConnInv(s, s.conns[k]);
      ConnStays(s, s', s.conns[k]);
      OthersStay(s, s', k);
    }
  }

  lemma TakeAckKeepsInv(s: System)
    requires Inv(s)
    ensures Inv(Do(s, TakeAck))
  {
    var s' := Do(s, TakeAck);
    if s' != s {
      var k := s.agent.k;
      assert ConnInv(s, s.conns[k]);
      ConnStays(s, s', s.conns[k]);
      assert s.conns[k].queue[0] in s.conns[k].queue;
      OthersStay(s, s', k);
      if s.agent.batch != [] {
        ItemsEnd(s.j, s.agent.cursor, s.agent.pos);
        NothingBehindLast(s.j, s.agent.cursor, s.agent.pos);
      }
    }
  }

  /** Steps of a handler that touch neither table nor agent. */
  lemma HandlerStepKeepsInv(s: System, a: Action)
    requires Inv(s) && (a.HandOut? || a.HubReceive? || a.HubFail? || a.HubAck? || a.HubClose?)
    ensures Inv(Do(s, a))
  {
    var k := a.k;
    if k < |s.conns| {
      assert ConnInv(s, s.conns[k]);
      assert s.conns[k].toHub != [] ==> s.conns[k].toHub[0] in s.conns[k].toHub;
      var s' := Do(s, a);
      HandlerConn(s, a);
      hide ConnInv, Do;
      assert SetConn(s, k, s.conns[k]) == s;
      SetConnKeepsInv(s, k, s'.conns[k]);
    }
  }

  /** What such a step makes of its own connection. */
  lemma HandlerConn(s: System, a: Action)
    requires a.HandOut? || a.HubReceive? || a.HubFail? || a.HubAck? || a.HubClose?
    requires a.k < |s.conns| && ConnInv(s, s.conns[a.k]) && s.cursor <= s.high
    ensures |Do(s, a).conns| == |s.conns|
    ensures Do(s, a) == SetConn(s, a.k, Do(s, a).conns[a.k]) && ConnInv(s, Do(s, a).conns[a.k])
  {
    hide Replays;
    var c := s.conns[a.k];
    assert SetConn(s, a.k, c) == s;
    assert c.toHub != [] ==> c.toHub[0] in c.toHub;
  }

  lemma SetConnKeepsInv(s: System, k: nat, c: Conn)
    requires Inv(s) && k < |s.conns| && ConnInv(s, c)
    ensures Inv(SetConn(s, k, c))
  {
    hide ConnInv;
    ConnStays(s, SetConn(s, k, c), c);
    OthersStay(s, SetConn(s, k, c), k);
  }

  lemma CommitKeepsTable(s: System, items: seq<Item>)
    requires TableInv(s) && Replays(s, items)
    ensures TableInv(s.(rows := InsertAll(s.rows, ItemRows(items)), cursor := Last(items),
                        high := Max(s.high, Last(items))))
  {
    hide Stored, KeyedRows;
    var a, z :| StartsInside(s, items, a, z);
    ItemsEnd(s.j, a, z);
    var last := Last(items);
    var high := Max(s.high, last);
    ItemsRows(s.j, a, last);
    KeyedPartInserts(s.rows, ItemRows(items));
    CommitExtendsPrefix(s.j, s.high, a, last);
    KeyedIs(s.j, a, last);
    RowsSplit(s.j, 0, s.high, high);
    RowsSplit(s.j, 0, a, last);
    RowsSplit(s.j, 0, last, high);
    InsertedMembers(s.rows, ItemRows(items));
    forall r | r in RowsOf(s.j, 0, high) && !Keyed(r)
      ensures r in InsertAll(s.rows, ItemRows(items))
    {
      if r !in RowsOf(s.j, 0, s.high) {
        RowsSplit(s.j, a, s.high, last);
      }
    }
  }

  lemma KeyedIs(j: seq<Entry>, a: nat, z: nat)
    requires a <= z <= |j|
    ensures KeyedRows(j, a, z) == Filter(Keyed, RowsOf(j, a, z))
  {
  }

  /** What a handler finds once it took a batch. */
  lemma ReceivedReplays(s: System, k: nat)
    requires Inv(s) && k < |s.conns| && s.conns[k].handling.Received?
    ensures Matches(s, s.conns[k].handling.b) && Replays(s, s.conns[k].handling.b.items)
  {
    assert ConnInv(s, s.conns[k]);
  }

  /** The handler that settled its batch: a positive answer promises only what is stored. */
  lemma SettledConn(s: System, s': System, k: nat, ok: bool)
    requires k < |s.conns| && s.conns[k].handling.Received? && ConnInv(s, s.conns[k])
    requires Grows(s, s') && SameWait(s, s') && s'.agent == s.agent
    requires s.conns[k].handling.b.items != [] && (ok ==> Last(s.conns[k].handling.b.items) <= s'.high)
    ensures ConnInv(s', s.conns[k].(handling := Settled(s.conns[k].handling.b, ok)))
  {
    hide Replays, Grows, SameWait;
    ConnStays(s, s', s.conns[k]);
  }

  lemma CommitKeepsInv(s: System, k: nat)
    requires Inv(s)
    ensures Inv(Do(s, HubCommit(k)))
  {
    hide ConnInv, Matches, TableInv, Acceptable, InsertAll, ItemRows;
    var s' := Do(s, HubCommit(k));
    if k < |s.conns| && s.conns[k].handling.Received? {
      var b := s.conns[k].handling.b;
      ReceivedReplays(s, k);
      if Acceptable(b.items) {
        CommitKeepsTable(s, b.items);
        TableIgnores(s.(rows := InsertAll(s.rows, ItemRows(b.items)), cursor := Last(b.items),
                        high := Max(s.high, Last(b.items))), s');
      } else {
        TableIgnores(s, s');
      }
      SettledConn(s, s', k, Acceptable(b.items));
      OthersStay(s, s', k);
    }
  }

  lemma TableIgnores(s: System, s': System)
    requires TableInv(s) && s'.j == s.j && s'.rows == s.rows && s'.cursor == s.cursor && s'.high == s.high
    ensures TableInv(s')
  {
  }

  lemma DoKeepsInv(s: System, a: Action)
    requires Inv(s)
    ensures Inv(Do(s, a))
  {
    hide Inv, Do;
    match a {
      case Log(e) => LogKeepsInv(s, e);
      case Connect => ConnectKeepsInv(s);
      case StartFollower => AgentStepKeepsInv(s, a);
      case ReadEntry => AgentStepKeepsInv(s, a);
      case Restart => AgentStepKeepsInv(s, a);
      case Disconnect => AgentStepKeepsInv(s, a);
      case Send => SendKeepsInv(s);
      case Deliver => DeliverKeepsInv(s);
      case TakeAck => TakeAckKeepsInv(s);
      case HubCommit(k) => CommitKeepsInv(s, k);
      case _ => HandlerStepKeepsInv(s, a);
    }
  }

  // ---------- every schedule ----------

  lemma StartIsInv(s: System)
    requires Start(s)
    ensures Inv(s)
  {
    KeyedPartInserts([], RowsOf(s.j, 0, s.high));
    InsertedMembers([], RowsOf(s.j, 0, s.high));
  }

  lemma {:induction false} ExecKeepsInv(s: System, schedule: seq<Action>)
    requires Start(s)
    ensures Inv(Exec(s, schedule))
  {
    hide Inv, Do, Start;
    if schedule == [] {
      StartIsInv(s);
    } else {
      ExecKeepsInv(s, schedule[..|schedule| - 1]);
      DoKeepsInv(Exec(s, schedule[..|schedule| - 1]), schedule[|schedule| - 1]);
    }
  }

  /** Exactly a prefix: after any schedule the rows that the UNIQUE constraint covers are those of the journal up to
      some position, each key once and in journal order; no other row is stored; and both cursors lie inside it. */
  lemma StoredIsAPrefix(s: System, schedule: seq<Action>)
    requires Start(s)
    ensures var t := Exec(s, schedule);
            && t.high <= |t.j|
            && Filter(Keyed, t.rows) == Stored(t.j, t.high)
            && KeysOnce(Filter(Keyed, t.rows))
            && (forall r :: r in t.rows ==> r in RowsOf(t.j, 0, t.high))
            && t.cursor <= t.high
            && (t.agent.Streaming? ==> t.agent.cursor <= t.high)
  {
    ExecKeepsInv(s, schedule);
    var t := Exec(s, schedule);
    InsertAllKeepsKeysOnce([], KeyedRows(t.j, 0, t.high));
  }

  /** For a stream whose rows all have full keys, such as VPN events, the whole table is that prefix. */
  lemma FullyKeyedStreamIsExact(s: System, schedule: seq<Action>)
    requires Start(s)
    requires var t := Exec(s, schedule);
             forall i :: 0 <= i < |t.j| && t.j[i].row.Some? ==> Keyed(t.j[i].row.value)
    ensures var t := Exec(s, schedule); t.high <= |t.j| && t.rows == Stored(t.j, t.high)
  {
    StoredIsAPrefix(s, schedule);
    var t := Exec(s, schedule);
    RowsKeyed(t.j, 0, t.high);
    FilterAll(Keyed, t.rows);
  }

  lemma {:induction false} RowsKeyed(j: seq<Entry>, a: nat, z: nat)
    requires a <= z <= |j| && forall i :: 0 <= i < |j| && j[i].row.Some? ==> Keyed(j[i].row.value)
    ensures forall r :: r in RowsOf(j, a, z) ==> Keyed(r)
  {
    if a < z {
      RowsKeyed(j, a, z - 1);
    }
  }

  /** Rows without a full key are never lost, but a replay may store them again. */
  lemma NothingIsLost(s: System, schedule: seq<Action>, r: Record)
    requires Start(s)
    requires Exec(s, schedule).high <= |Exec(s, schedule).j|
             && r in RowsOf(Exec(s, schedule).j, 0, Exec(s, schedule).high)
    ensures if Keyed(r) then HasKeyOf(Exec(s, schedule).rows, r) else r in Exec(s, schedule).rows
  {
    ExecKeepsInv(s, schedule);
    var t := Exec(s, schedule);
    if Keyed(r) {
      assert r in KeyedRows(t.j, 0, t.high);
      InsertedPresent([], KeyedRows(t.j, 0, t.high), r);
      var i :| 0 <= i < |Filter(Keyed, t.rows)| && Filter(Keyed, t.rows)[i].key == r.key;
      assert Filter(Keyed, t.rows)[i] in t.rows;
    }
  }

  /** Read off the journal itself: after any schedule every usable entry up to `high` that makes a row has it stored,
      a keyed one by its key, and as it is unless an earlier entry has the same key; and every stored row is the row of
      such an entry. */
  lemma EntriesAreStored(s: System, schedule: seq<Action>)
    requires Start(s)
    ensures var t := Exec(s, schedule);
            && t.high <= |t.j|
            && (forall i, r :: 0 <= i < t.high && t.j[i].usable && t.j[i].row == Some(r) ==>
                  (r.key.Some? ==> exists x :: x in t.rows && x.key == r.key)
                  && (r.key.None? || FirstOfKey(t.j, i, r) ==> r in t.rows))
            && (forall x :: x in t.rows ==> exists i :: 0 <= i < t.high && t.j[i].usable && t.j[i].row == Some(x))
  {
    hide Stored, RowsOf, InsertAll, Filter;
    StoredIsAPrefix(s, schedule);
    var t := Exec(s, schedule);
    forall i, r | 0 <= i < t.high && t.j[i].usable && t.j[i].row == Some(r)
      ensures r.key.Some? ==> exists x :: x in t.rows && x.key == r.key
      ensures r.key.None? || FirstOfKey(t.j, i, r) ==> r in t.rows
    {
      assert Yields(t.j[i], r);
      RowsOfAre(t.j, 0, t.high, r);
      NothingIsLost(s, schedule, r);
      if Keyed(r) {
        var n :| 0 <= n < |t.rows| && t.rows[n].key == r.key;
        assert t.rows[n] in t.rows;
        if FirstOfKey(t.j, i, r) { FirstIsStored(t.j, t.high, i, r); }
      }
    }
    forall x | x in t.rows
      ensures exists i :: 0 <= i < t.high && t.j[i].usable && t.j[i].row == Some(x)
    {
      RowsOfAre(t.j, 0, t.high, x);
      var i :| 0 <= i < t.high && Yields(t.j[i], x);
    }
  }

  /** The handler of connection k is idle and the wire is clear. */
  ghost predicate Clear(s: System, k: nat) {
    k < |s.conns| && s.conns[k].toHub == [] && s.conns[k].handling.NoBatch? && s.conns[k].toAgent == []
  }

  function Round(s: System, k: nat): System {
    Do(Do(Do(Do(Do(Do(s, Send), HubReceive(k)), HubCommit(k)), HubAck(k)), Deliver), TakeAck)
  }

  /** One undisturbed round stores the batch and its cursor; the agent moves on if and only if no older ack is still
      queued, and otherwise replays the batch it just had stored. */
  lemma RoundAdvancesIff(s: System, k: nat)
    requires Inv(s) && s.agent.Streaming? && s.agent.k == k && s.agent.waiting.None? && Acceptable(s.agent.batch)
    requires Clear(s, k)
    ensures var t := Round(s, k);
            && t.rows == InsertAll(s.rows, ItemRows(s.agent.batch)) && t.cursor == Last(s.agent.batch)
            && t.agent.Streaming? && t.agent.batch == []
            && t.agent.cursor == if s.conns[k].queue == [] then Last(s.agent.batch) else s.agent.cursor
  {
    hide InsertAll, ItemRows, Items, Replays, TableInv;
    var c := s.conns[k];
    var b := Batch(s.nextId, s.agent.batch);
    var s1 := Do(s, Send);
    assert s1.conns[k] == c.(toHub := [b]);
    var s2 := Do(s1, HubReceive(k));
    assert s2.conns[k] == c.(toHub := [], handling := Received(b));
    var s3 := Do(s2, HubCommit(k));
    assert s3.conns[k] == c.(toHub := [], handling := Settled(b, true));
    var s4 := Do(s3, HubAck(k));
    assert s4.conns[k] == c.(toHub := [], toAgent := [Ack(b.id, true)]);
    var s5 := Do(s4, Deliver);
    assert s5.conns[k].queue == c.queue + [Ack(b.id, true)];
    assert ConnInv(s, c);
    assert c.queue != [] ==> c.queue[0] in c.queue && c.queue[0].id < s.nextId;
  }

  /** The stored prefix never shrinks, though the hub's own cursor may step back on a replay. */
  lemma {:induction false} PrefixNeverShrinks(s: System, first: seq<Action>, more: seq<Action>)
    ensures Exec(s, first).high <= Exec(s, first + more).high && Exec(s, first).j <= Exec(s, first + more).j
    ensures Exec(s, first).rows <= Exec(s, first + more).rows
  {
    if more == [] {
      assert first + more == first;
    } else {
      assert (first + more)[..|first + more| - 1] == first + more[..|more| - 1];
      PrefixNeverShrinks(s, first, more[..|more| - 1]);
      StepGrows(Exec(s, first + more[..|more| - 1]), more[|more| - 1]);
    }
  }

  lemma StepGrows(s: System, a: Action)
    ensures s.high <= Do(s, a).high && s.j <= Do(s, a).j && s.rows <= Do(s, a).rows
  {
  }
}
