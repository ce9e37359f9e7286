/** The journal stream gets ahead: what a schedule can still bring into the table, from any reachable state. */
module JournalProgress {
  import opened Wrappers
  import opened Journal
  import opened JournalStream

  lemma {:induction false} ExecConcat(s: System, a: seq<Action>, b: seq<Action>)
    ensures Exec(s, a + b) == Exec(Exec(s, a), b)
  {
    if b == [] {
      assert a + b == a;
    } else {
      hide Do;
      assert (a + b)[..|a + b| - 1] == a + b[..|b| - 1];
      ExecConcat(s, a, b[..|b| - 1]);
    }
  }

  lemma ExecOne(s: System, a: Action)
    ensures Exec(s, [a]) == Do(s, a)
  {
    hide Do;
    assert [a][..0] == [];
    assert Exec(s, []) == s;
  }

  lemma ExecNext(s: System, schedule: seq<Action>, a: Action)
    ensures Exec(s, schedule + [a]) == Do(Exec(s, schedule), a)
  {
    hide Do, Exec;
    ExecConcat(s, schedule, [a]);
    ExecOne(Exec(s, schedule), a);
  }

  /** The agent streams on a connection of its own, with nothing on its way. */
  ghost predicate Ready(s: System) {
    && s.agent.Streaming? && s.agent.waiting.None? && |s.agent.batch| <= 50
    && Clear(s, s.agent.k) && s.conns[s.agent.k].queue == []
  }

  /** No usable entry is left from position n on. */
  ghost predicate NoneLeft(j: seq<Entry>, n: nat) {
    forall i :: n <= i < |j| ==> !j[i].usable
  }

  // ---------- a fresh connection ----------

  function Reconnect(s: System): seq<Action> {
    [Disconnect, Connect, HandOut(|s.conns|), StartFollower]
  }

  lemma ReconnectIsReady(s: System)
    ensures var t := Exec(s, Reconnect(s));
            Ready(t) && t.j == s.j && t.high == s.high && t.agent.cursor == s.cursor
  {
    hide Do, Exec, Ready;
    var a := Reconnect(s);
    var n := |s.conns|;
    FourSteps(s, a[0], a[1], a[2], a[3]);
    Connects(s);
    FollowsFrom(Do(Do(s, Disconnect), Connect), n);
  }

  lemma Connects(s: System)
    ensures var t := Do(Do(s, Disconnect), Connect);
            t == s.(conns := s.conns + [Conn(None, [], NoBatch, [], [])], agent := Connecting(|s.conns|))
  {
  }

  lemma FollowsFrom(s: System, n: nat)
    requires n < |s.conns| && s.agent == Connecting(n) && s.conns[n] == Conn(None, [], NoBatch, [], [])
    ensures var t := Do(Do(s, HandOut(n)), StartFollower);
            Ready(t) && t.j == s.j && t.high == s.high && t.agent.cursor == s.cursor
  {
    var s1 := Do(s, HandOut(n));
    assert s1.conns[n] == Conn(Some(s.cursor), [], NoBatch, [], []);
  }

  lemma FourSteps(s: System, a: Action, b: Action, c: Action, d: Action)
    ensures Exec(s, [a, b, c, d]) == Do(Do(Do(Do(s, a), b), c), d)
  {
    hide Do;
    assert [a, b, c, d] == ([a] + [b]) + [c] + [d];
    ExecNext(s, [a] + [b] + [c], d);
    ExecNext(s, [a] + [b], c);
    ExecNext(s, [a], b);
    ExecOne(s, a);
  }

  // ---------- one round ----------

  function RoundSteps(k: nat): seq<Action> {
    [Send, HubReceive(k), HubCommit(k), HubAck(k)] + [Deliver, TakeAck]
  }

  lemma RoundIsExec(s: System, k: nat)
    ensures Exec(s, RoundSteps(k)) == Round(s, k)
  {
    hide Do;
    FourSteps(s, Send, HubReceive(k), HubCommit(k), HubAck(k));
    var t := Exec(s, [Send, HubReceive(k), HubCommit(k), HubAck(k)]);
    ExecConcat(s, [Send, HubReceive(k), HubCommit(k), HubAck(k)], [Deliver, TakeAck]);
    assert [Deliver, TakeAck] == [Deliver] + [TakeAck];
    ExecNext(t, [Deliver], TakeAck);
    ExecOne(t, Deliver);
  }

  /** A round takes the whole batch and leaves the connection as clear as it was. */
  lemma RoundIsReady(s: System)
    requires Ready(s) && Acceptable(s.agent.batch)
    ensures var t := Round(s, s.agent.k);
            Ready(t) && t.j == s.j && t.agent.batch == [] && t.agent.pos == s.agent.pos
            && t.agent.cursor == Last(s.agent.batch)
  {
    hide InsertAll, ItemRows, Items;
    var k := s.agent.k;
    var c := s.conns[k];
    var b := Batch(s.nextId, s.agent.batch);
    var s1 := Do(s, Send);
    assert s1.conns[k] == c.(toHub := [b]);
    var s2 := Do(s1, HubReceive(k));
    assert s2.conns[k] == c.(toHub := [], handling := Received(b));
    var s3 := Do(s2, HubCommit(k));
    assert s3.conns[k] == c.(toHub := [], handling := Settled(b, true));
    var s4 := Do(s3, HubAck(k));
    assert s4.conns[k] == c.(toHub := [], toAgent := [Ack(b.id, true)]);
    var s5 := Do(s4, Deliver);
    assert s5.conns[k].queue == [Ack(b.id, true)];
  }

  // ---------- catching up ----------

  /** What was collected are the usable entries in between. */
  lemma {:induction false} ItemsAre(j: seq<Entry>, a: nat, z: nat)
    requires a <= z <= |j|
    ensures forall item :: item in Items(j, a, z) ==> a < item.cursor <= z && item.entry == j[item.cursor - 1]
    ensures forall item :: item in Items(j, a, z) ==> item.entry.usable
    ensures forall i :: a <= i < z && j[i].usable ==> Item(i + 1, j[i]) in Items(j, a, z)
  {
    if a < z {
      ItemsAre(j, a, z - 1);
    }
  }

  lemma {:induction false} CatchUp(s: System) returns (more: seq<Action>)
    requires Inv(s) && Ready(s)
    requires forall i :: s.agent.cursor <= i < |s.j| && s.j[i].usable ==> s.j[i].acceptable
    ensures var t := Exec(s, more);
            t.j == s.j && t.agent.Streaming? && t.agent.batch == [] && t.agent.pos == |t.j|
    decreases if s.agent.Streaming? then |s.j| - s.agent.pos else 0,
              if s.agent.Streaming? then |s.agent.batch| else 0
  {
    hide Inv, Do, Items;
    ReadyFacts(s);
    if s.agent.pos < |s.j| && |s.agent.batch| < 50 {
      ReadsOn(s);
      DoKeepsInv(s, ReadEntry);
      var rest := CatchUp(Do(s, ReadEntry));
      ExecOne(s, ReadEntry);
      ExecConcat(s, [ReadEntry], rest);
      more := [ReadEntry] + rest;
    } else if s.agent.batch == [] {
      more := [];
    } else {
      var k := s.agent.k;
      RoundIsReady(s);
      RoundIsExec(s, k);
      RoundKeepsInv(s, k);
      var rest := CatchUp(Round(s, k));
      ExecConcat(s, RoundSteps(k), rest);
      more := RoundSteps(k) + rest;
    }
  }

  lemma RoundKeepsInv(s: System, k: nat)
    requires Inv(s)
    ensures Inv(Round(s, k))
  {
    hide Inv, Do;
    var s1 := Do(s, Send);
    DoKeepsInv(s, Send);
    var s2 := Do(s1, HubReceive(k));
    DoKeepsInv(s1, HubReceive(k));
    var s3 := Do(s2, HubCommit(k));
    DoKeepsInv(s2, HubCommit(k));
    var s4 := Do(s3, HubAck(k));
    DoKeepsInv(s3, HubAck(k));
    DoKeepsInv(s4, Deliver);
    DoKeepsInv(Do(s4, Deliver), TakeAck);
  }

  lemma ReadyFacts(s: System)
    requires Inv(s) && Ready(s)
    requires forall i :: s.agent.cursor <= i < |s.j| && s.j[i].usable ==> s.j[i].acceptable
    ensures s.agent.cursor <= s.agent.pos <= |s.j|
    ensures s.agent.batch != [] ==> Acceptable(s.agent.batch) && s.agent.cursor < Last(s.agent.batch)
    ensures s.agent.batch == [] && s.agent.pos == |s.j| ==> NoneLeft(s.j, s.agent.cursor)
  {
    hide ConnInv, TableInv, Items;
    var batch := s.agent.batch;
    ItemsAre(s.j, s.agent.cursor, s.agent.pos);
    forall i | 0 <= i < |batch|
      ensures batch[i].entry.acceptable && s.agent.cursor < batch[i].cursor
    {
      assert batch[i] in batch;
    }
  }

  lemma ReadsOn(s: System)
    requires Ready(s) && s.agent.pos < |s.j| && |s.agent.batch| < 50
    ensures var t := Do(s, ReadEntry);
            Ready(t) && t.j == s.j && t.agent.pos == s.agent.pos + 1 && t.agent.cursor == s.agent.cursor
  {
  }

  // ---------- starting over ----------

  /** A round whose transaction fails stores nothing, and the agent starts over behind what was last acknowledged. */
  lemma FailedRoundReplays(s: System)
    requires Ready(s) && s.agent.batch != []
    ensures var k := s.agent.k;
            var t := Do(Do(Do(Do(Do(Do(s, Send), HubReceive(k)), HubFail(k)), HubAck(k)), Deliver), TakeAck);
            Ready(t) && t.rows == s.rows && t.cursor == s.cursor && t.high == s.high && t.j == s.j
            && t.agent.cursor == t.agent.pos == s.agent.cursor && t.agent.batch == []
  {
    var k := s.agent.k;
    var c := s.conns[k];
    var b := Batch(s.nextId, s.agent.batch);
    var s1 := Do(s, Send);
    assert s1.conns[k] == c.(toHub := [b]);
    var s2 := Do(s1, HubReceive(k));
    assert s2.conns[k] == c.(toHub := [], handling := Received(b));
    var s3 := Do(s2, HubFail(k));
    assert s3.conns[k] == c.(toHub := [], handling := Settled(b, false));
    var s4 := Do(s3, HubAck(k));
    assert s4.conns[k] == c.(toHub := [], toAgent := [Ack(b.id, false)]);
    var s5 := Do(s4, Deliver);
    assert s5.conns[k].queue == [Ack(b.id, false)];
  }

  function Reads(n: nat): seq<Action> {
    seq(n, _ => ReadEntry)
  }

  /** The agent has read up to z: it holds the usable entries from its cursor on, and stopped only at fifty. */
  ghost predicate HasRead(s: System, j: seq<Entry>, a: nat, z: nat)
    requires a <= z <= |j|
  {
    && s.j == j && s.agent.Streaming? && s.agent.waiting.None? && s.agent.cursor == a
    && s.agent.batch == Items(j, a, z) && s.agent.pos <= z && (|s.agent.batch| < 50 ==> s.agent.pos == z)
  }

  lemma ReadsNext(s: System, j: seq<Entry>, a: nat, z: nat)
    requires a < z <= |j| && HasRead(s, j, a, z - 1) && |Items(j, a, z)| <= 50
    ensures HasRead(Do(s, ReadEntry), j, a, z)
  {
    hide Items, Do, RowsOf;
    OneMoreEntry(j, a, z);
    if |s.agent.batch| < 50 {
      ReadGoes(s);
    } else {
      StopsReading(s);
    }
  }

  lemma StopsReading(s: System)
    requires s.agent.Streaming? && |s.agent.batch| >= 50
    ensures Do(s, ReadEntry) == s
  {
  }

  lemma {:induction false} ReadingCollects(s: System, a: nat, n: nat)
    requires a + n <= |s.j| && HasRead(s, s.j, a, a) && |Items(s.j, a, a + n)| <= 50
    ensures HasRead(Exec(s, Reads(n)), s.j, a, a + n)
  {
    hide HasRead, Exec, Items, Do;
    if n > 0 {
      FewerItems(s.j, a, a + n);
      assert Reads(n) == Reads(n - 1) + [ReadEntry];
      ReadingCollects(s, a, n - 1);
      ExecNext(s, Reads(n - 1), ReadEntry);
      ReadsNext(Exec(s, Reads(n - 1)), s.j, a, a + n);
    } else {
      assert Exec(s, Reads(0)) == s by { ExecNone(s); }
    }
  }

  lemma ExecNone(s: System)
    ensures Exec(s, Reads(0)) == s
  {
  }

  lemma FewerItems(j: seq<Entry>, a: nat, z: nat)
    requires a < z <= |j|
    ensures |Items(j, a, z - 1)| <= |Items(j, a, z)|
  {
  }

  lemma ReadGoes(s: System)
    requires s.agent.Streaming? && s.agent.waiting.None? && s.agent.pos < |s.j| && |s.agent.batch| < 50
    ensures var t, e := Do(s, ReadEntry), s.j[s.agent.pos];
            t.j == s.j
            && t.agent == s.agent.(pos := s.agent.pos + 1,
                                   batch := s.agent.batch + if e.usable then [Item(s.agent.pos + 1, e)] else [])
  {
  }

  /** After a restart, for whatever reason, the same entries make the same batch again. */
  lemma RestartReplays(s: System)
    requires Inv(s) && s.agent.Streaming? && |s.agent.batch| <= 50
    ensures var t := Exec(Do(s, Action.Restart), Reads(s.agent.pos - s.agent.cursor));
            t.agent.Streaming? && t.agent.cursor == s.agent.cursor && t.agent.batch == s.agent.batch
  {
    hide ConnInv, TableInv, Exec;
    ReadingCollects(Do(s, Action.Restart), s.agent.cursor, s.agent.pos - s.agent.cursor);
  }

  // ---------- standing still ----------

  /** A batch with an entry the hub refuses is refused whole, so nothing gets past that entry. */
  lemma HighStops(s: System, a: Action, i: nat)
    requires Inv(s) && s.high <= i < |s.j| && s.j[i].usable && !s.j[i].acceptable
    ensures Do(s, a).high <= i
  {
    hide ConnInv, Matches, Replays, TableInv, AgentInv, InsertAll, ItemRows, Items, Acceptable;
    if a.HubCommit? && a.k < |s.conns| && s.conns[a.k].handling.Received? {
      ReceivedReplays(s, a.k);
      AcceptedEndsBefore(s, s.conns[a.k].handling.b.items, i);
    }
  }

  lemma AcceptedEndsBefore(s: System, items: seq<Item>, i: nat)
    requires Replays(s, items) && s.high <= i < |s.j| && s.j[i].usable && !s.j[i].acceptable
    ensures Acceptable(items) ==> Last(items) <= i
  {
    hide Items;
    var a, z :| StartsInside(s, items, a, z);
    ItemsEnd(s.j, a, z);
    ItemsAre(s.j, a, Last(items));
    if Last(items) > i {
      assert Item(i + 1, s.j[i]) in items;
      var n :| 0 <= n < |items| && items[n] == Item(i + 1, s.j[i]);
    }
  }

  lemma {:induction false} StaysBehind(s: System, more: seq<Action>, i: nat)
    requires Inv(s) && s.high <= i < |s.j| && s.j[i].usable && !s.j[i].acceptable
    ensures var t := Exec(s, more); Inv(t) && t.high <= i < |t.j| && t.j[i] == s.j[i]
  {
    if more != [] {
      hide Inv, Do;
      var t := Exec(s, more[..|more| - 1]);
      StaysBehind(s, more[..|more| - 1], i);
      HighStops(t, more[|more| - 1], i);
      DoKeepsInv(t, more[|more| - 1]);
      StepGrows(t, more[|more| - 1]);
    }
  }

  // ---------- the main result ----------

  /** Everything the entries of a start state's prefix hold was accepted once. */
  ghost predicate Accepted(s: System) {
    forall i :: 0 <= i < s.high && i < |s.j| && s.j[i].usable ==> s.j[i].acceptable
  }

  lemma AcceptedStays(s: System, a: Action)
    requires Inv(s) && Accepted(s)
    ensures Accepted(Do(s, a))
  {
    hide Inv, ConnInv, Matches, Replays, TableInv, AgentInv, InsertAll, ItemRows, Items, Acceptable;
    DoKeepsInv(s, a);
    StepGrows(s, a);
    var t := Do(s, a);
    InvHigh(s);
    forall i | 0 <= i < t.high && i < |t.j| && t.j[i].usable
      ensures t.j[i].acceptable
    {
      if s.high <= i < |s.j| && !s.j[i].acceptable {
        HighStops(s, a, i);
      }
      InvHigh(t);
      HighInside(s, a);
    }
  }

  lemma InvHigh(s: System)
    requires Inv(s)
    ensures s.cursor <= s.high <= |s.j|
  {
    hide ConnInv, AgentInv;
  }

  /** What is committed was in the journal before. */
  lemma HighInside(s: System, a: Action)
    requires Inv(s)
    ensures Do(s, a).high <= |s.j|
  {
    hide ConnInv, AgentInv, Matches, InsertAll, ItemRows, Items, Acceptable;
    if a.HubCommit? && a.k < |s.conns| && s.conns[a.k].handling.Received? {
      ReceivedReplays(s, a.k);
      var items := s.conns[a.k].handling.b.items;
      var x, z :| StartsInside(s, items, x, z);
      ItemsEnd(s.j, x, z);
    }
  }

  lemma {:induction false} ExecAccepted(s: System, schedule: seq<Action>)
    requires Start(s) && Accepted(s)
    ensures Accepted(Exec(s, schedule))
  {
    if schedule != [] {
      hide Inv, Do, Start, Accepted;
      ExecAccepted(s, schedule[..|schedule| - 1]);
      ExecKeepsInv(s, schedule[..|schedule| - 1]);
      AcceptedStays(Exec(s, schedule[..|schedule| - 1]), schedule[|schedule| - 1]);
    }
  }

  /** From any reachable state the steps can go on to store every usable entry of the journal if and only if the hub
      accepts each of those not stored yet: one that it refuses holds the stream up for good. */
  lemma CatchesUpIff(s: System, schedule: seq<Action>)
    requires Start(s) && Accepted(s)
    ensures var t := Exec(s, schedule);
            (exists more :: Exec(t, more).j == t.j && NoneLeft(t.j, Exec(t, more).high))
            <==> forall i :: t.high <= i < |t.j| && t.j[i].usable ==> t.j[i].acceptable
  {
    hide Inv, Do, Start, Accepted, NoneLeft, Exec;
    var t := Exec(s, schedule);
    ExecKeepsInv(s, schedule);
    if forall i :: t.high <= i < |t.j| && t.j[i].usable ==> t.j[i].acceptable {
      ExecAccepted(s, schedule);
      var more := ReconnectAndCatchUp(t);
    }
    if more :| Exec(t, more).j == t.j && NoneLeft(t.j, Exec(t, more).high) {
      forall i | t.high <= i < |t.j| && t.j[i].usable
        ensures t.j[i].acceptable
      {
        if !t.j[i].acceptable { LeftBehind(t, more, i); }
      }
    }
  }

  lemma LeftBehind(t: System, more: seq<Action>, i: nat)
    requires Inv(t) && t.high <= i < |t.j| && t.j[i].usable && !t.j[i].acceptable
    ensures !NoneLeft(t.j, Exec(t, more).high)
  {
    hide Inv;
    StaysBehind(t, more, i);
  }

  lemma ReconnectAndCatchUp(t: System) returns (more: seq<Action>)
    requires Inv(t) && Accepted(t)
    requires forall i :: t.high <= i < |t.j| && t.j[i].usable ==> t.j[i].acceptable
    ensures Exec(t, more).j == t.j && NoneLeft(t.j, Exec(t, more).high)
  {
    hide Inv, Do, Exec, Ready;
    ReconnectIsReady(t);
    InvHigh(t);
    var u := Exec(t, Reconnect(t));
    ManyKeepInv(t, Reconnect(t));
    IsStreaming(u);
    var rest := CatchUp(u);
    ExecConcat(t, Reconnect(t), rest);
    more := Reconnect(t) + rest;
    ManyKeepInv(u, rest);
    Finished(Exec(u, rest));
  }

  lemma IsStreaming(s: System)
    requires Ready(s)
    ensures s.agent.Streaming?
  {
  }

  lemma Finished(s: System)
    requires Inv(s) && s.agent.Streaming? && s.agent.batch == [] && s.agent.pos == |s.j|
    ensures NoneLeft(s.j, s.high)
  {
    hide ConnInv, TableInv, Items;
    ItemsAre(s.j, s.agent.cursor, s.agent.pos);
  }

  lemma {:induction false} ManyKeepInv(s: System, more: seq<Action>)
    requires Inv(s)
    ensures Inv(Exec(s, more))
  {
    if more != [] {
      hide Inv, Do;
      ManyKeepInv(s, more[..|more| - 1]);
      DoKeepsInv(Exec(s, more[..|more| - 1]), more[|more| - 1]);
    }
  }
}
