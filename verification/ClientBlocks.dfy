/** Blocking, unblocking and resyncing clients from several requests at once: rows and live block rules agree. */
module ClientBlocks {
  import opened Wrappers
  import opened Sequences
  import opened Rules
  import opened Lockout
  import opened Firewall
  import opened BlockRules

  /** A block request behind its transaction: about to issue its two commands, or about to take its row out again; and a
      resync that has read some rows and has these still to apply again. */
  datatype Call = Applying(row: Row) | Compensating(row: Row) | Reapplying(rows: seq<Row>) | Finished

  /** Client and address of a block row. */
  function ClientOf(row: Row): string {
    if row.rule.ClientBlock? then row.rule.clientName else ""
  }

  function AddressOf(row: Row): string {
    if row.rule.ClientBlock? then row.rule.clientIp else ""
  }

  predicate Busy(call: Call) {
    call.Applying? || call.Compensating?
  }

  /** `extra` and `undone` are bookkeeping: for each client, how often a rule went live without a row to account for it,
      because a resync found a block's rule missing or a block request found its row gone, and how often an unblock took
      out a row whose own commands were still to come. */
  datatype System = System(fw: Fw, calls: seq<Call>, extra: multiset<string>, undone: multiset<string>)

  /** Each transaction is atomic, and each live change of one block is one step that works or fails. */
  datatype Action =
    | Block(who: Option<string>, name: string, ip: string)
    | Issue(k: nat, works: bool)
    | Compensate(k: nat)
    | Unblock(name: string, works: bool)
    | Read(rows: seq<Row>)
    | Reapply(k: nat)
    | Elsewhere(fw: Fw)

  /** Any change that leaves block rows and block rules alone; ids are never used again. */
  ghost predicate SameBlocks(a: Fw, b: Fw) {
    && (forall id :: id in a.table && a.table[id].rule.ClientBlock? ==> id in b.table && b.table[id] == a.table[id])
    && (forall id :: id in b.table && b.table[id].rule.ClientBlock? ==>
          id in a.table && a.table[id].rule.ClientBlock?)
    && (forall c, name :: BlocksOf(a.live, c, name) == BlocksOf(b.live, c, name))
    && WellKept(b) && a.nextId <= b.nextId && forall id :: id in b.table ==> id in a.table || id >= a.nextId
  }

  predicate InFlight(calls: seq<Call>, id: int) {
    exists k :: 0 <= k < |calls| && Busy(calls[k]) && calls[k].row.id == id
  }

  /** The unblock of a client that takes its row out while the block's commands are still to come. */
  ghost predicate Undoes(s: System, name: string) {
    var b := BlockRow(s.fw.table, name);
    b.Some? && b.value in s.fw.table && InFlight(s.calls, b.value) && b.value !in UnblockClient(s.fw, name).fw.table
  }

  ghost function Do(env: Env, s: System, a: Action): System {
    match a
    case Block(who, name, ip) =>
      if BlockRow(s.fw.table, name).Some? || (!env.hubMode && who == Some(ip)) then s
      else
        var position := MaxPosition(AllRows(s.fw.table)) + 1.0;
        var row := Row(s.fw.nextId, ClientBlock(name, ip), "Block " + name, true, position);
        s.(fw := s.fw.(table := s.fw.table[s.fw.nextId := row], nextId := s.fw.nextId + 1),
           calls := s.calls + [Applying(row)])
    case Issue(k, works) =>
      if k < |s.calls| && s.calls[k].Applying? then
        var row := s.calls[k].row;
        if works then
          s.(fw := s.fw.(live := Apply(s.fw.live, row)), calls := s.calls[k := Finished],
             extra := if row.id in s.fw.table then s.extra else s.extra + multiset{ClientOf(row)})
        else s.(calls := s.calls[k := Compensating(row)])
      else s
    case Compensate(k) =>
      if k < |s.calls| && s.calls[k].Compensating? then
        s.(fw := s.fw.(table := s.fw.table - {s.calls[k].row.id}), calls := s.calls[k := Finished])
      else s
    case Unblock(name, works) =>
      if works then
        s.(fw := UnblockClient(s.fw, name).fw,
           undone := if Undoes(s, name) then s.undone + multiset{name} else s.undone)
      else s
    case Read(rows) =>
      if forall r :: r in rows ==> r.id in s.fw.table && s.fw.table[r.id] == r && r.rule.ClientBlock? then
        s.(calls := s.calls + [Reapplying(rows)])
      else s
    case Reapply(k) =>
      if k < |s.calls| && s.calls[k].Reapplying? && s.calls[k].rows != [] then
        var row := s.calls[k].rows[0];
        s.(fw := s.fw.(live := Apply(Unapply(s.fw.live, row).0, row)),
           calls := s.calls[k := Reapplying(s.calls[k].rows[1..])],
           extra := if AddressOf(row) in Ips(s.fw.live, ClientOf(row)) then s.extra
                    else s.extra + multiset{ClientOf(row)})
      else s
    case Elsewhere(fw) => if SameBlocks(s.fw, fw) then s.(fw := fw) else s
  }

  ghost function Exec(env: Env, s: System, schedule: seq<Action>): System {
    if schedule == [] then s
    else Do(env, Exec(env, s, schedule[..|schedule| - 1]), schedule[|schedule| - 1])
  }

  // ---------- the invariant ----------

  ghost predicate CallsInv(fw: Fw, calls: seq<Call>) {
    && (forall k :: 0 <= k < |calls| && Busy(calls[k]) ==>
          calls[k].row.rule.ClientBlock? && calls[k].row.id < fw.nextId
          && (calls[k].row.id in fw.table ==> fw.table[calls[k].row.id] == calls[k].row))
    && (forall j, k :: 0 <= j < k < |calls| && Busy(calls[j]) && Busy(calls[k]) ==>
          calls[j].row.id != calls[k].row.id)
    && (forall k, r :: 0 <= k < |calls| && calls[k].Reapplying? && r in calls[k].rows ==> r.rule.ClientBlock?)
  }

  /** The row's commands have been issued. */
  ghost predicate InForce(s: System, name: string, id: int) {
    IsBlockOf(s.fw.table, name, id) && !InFlight(s.calls, id)
  }

  ghost predicate Blocked(s: System, name: string) {
    exists id :: InForce(s, name, id)
  }

  ghost function Bit(b: bool): nat {
    if b then 1 else 0
  }

  /** Both chains list the same addresses, among them the one in force, and their number is accounted for. */
  ghost predicate Accounts(s: System, name: string) {
    var ips := Ips(s.fw.live, name);
    && ListsBlocks(s.fw.live, name, ips)
    && |ips| + s.undone[name] == Bit(Blocked(s, name)) + s.extra[name]
    && forall id :: InForce(s, name, id) ==> s.fw.table[id].rule.clientIp in ips
  }

  ghost predicate Inv(s: System) {
    && WellKept(s.fw) && OneBlockEach(s.fw.table) && CallsInv(s.fw, s.calls)
    && forall name :: Accounts(s, name)
  }

  // ---------- calls in flight ----------

  lemma InFlightWith(calls: seq<Call>, call: Call, id: int)
    ensures InFlight(calls + [call], id) <==> InFlight(calls, id) || (Busy(call) && call.row.id == id)
  {
    var all := calls + [call];
    if InFlight(calls, id) {
      var k :| 0 <= k < |calls| && Busy(calls[k]) && calls[k].row.id == id;
      assert all[k] == calls[k];
    }
    assert all[|calls|] == call;
  }

  lemma InFlightWithout(calls: seq<Call>, k: nat, call: Call, id: int)
    requires k < |calls| && Busy(calls[k]) && (Busy(call) ==> call.row == calls[k].row)
    requires forall i, j :: 0 <= i < j < |calls| && Busy(calls[i]) && Busy(calls[j]) ==>
               calls[i].row.id != calls[j].row.id
    ensures InFlight(calls[k := call], id) <==> InFlight(calls, id) && (!Busy(call) ==> id != calls[k].row.id)
    ensures InFlight(calls, calls[k].row.id)
  {
    var after := calls[k := call];
    if InFlight(after, id) {
      var i :| 0 <= i < |after| && Busy(after[i]) && after[i].row.id == id;
      assert Busy(calls[i]) && calls[i].row.id == id;
    }
    if InFlight(calls, id) && (!Busy(call) ==> id != calls[k].row.id) {
      var i :| 0 <= i < |calls| && Busy(calls[i]) && calls[i].row.id == id;
      assert Busy(after[i]) && after[i].row.id == id;
    }
  }

  /** Calls that are not busy do not count. */
  lemma InFlightIdle(calls: seq<Call>, k: nat, call: Call, id: int)
    requires k < |calls| && !Busy(calls[k]) && !Busy(call)
    ensures InFlight(calls[k := call], id) <==> InFlight(calls, id)
  {
    var after := calls[k := call];
    if InFlight(after, id) {
      var i :| 0 <= i < |after| && Busy(after[i]) && after[i].row.id == id;
      assert Busy(calls[i]) && calls[i].row.id == id;
    }
    if InFlight(calls, id) {
      var i :| 0 <= i < |calls| && Busy(calls[i]) && calls[i].row.id == id;
      assert Busy(after[i]) && after[i].row.id == id;
    }
  }

  // ---------- how an account moves ----------

  /** Nothing about the client has changed. */
  lemma SameAccount(s: System, s': System, name: string)
    requires Accounts(s, name)
    requires forall ips :: ListsBlocks(s.fw.live, name, ips) ==> ListsBlocks(s'.fw.live, name, ips)
    requires forall id :: InForce(s', name, id) <==> InForce(s, name, id)
    requires forall id :: InForce(s, name, id) ==> id in s'.fw.table && s'.fw.table[id] == s.fw.table[id]
    requires s'.extra[name] == s.extra[name] && s'.undone[name] == s.undone[name]
    ensures Accounts(s', name)
  {
    hide ListsBlocks, Ips, InFlight;
    ListsIps(s'.fw.live, name, Ips(s.fw.live, name));
  }

  lemma BlockKeepsInv(env: Env, s: System, who: Option<string>, name: string, ip: string)
    requires Inv(s)
    ensures Inv(Do(env, s, Action.Block(who, name, ip)))
  {
    hide MaxPosition, Accounts, InFlight, ListsBlocks;
    var s' := Do(env, s, Action.Block(who, name, ip));
    if s' != s {
      assert s'.calls[..|s.calls|] == s.calls;
      var row := s'.calls[|s.calls|].row;
      RowAdded(s.fw.table, row, name);
      forall n
        ensures Accounts(s', n)
      {
        forall i
          ensures InForce(s', n, i) <==> InForce(s, n, i)
          ensures InForce(s, n, i) ==> s'.fw.table[i] == s.fw.table[i]
        {
          InFlightWith(s.calls, s'.calls[|s.calls|], i);
        }
        SameAccount(s, s', n);
      }
    }
  }

  lemma RowAdded(t: Table, row: Row, name: string)
    requires OneBlockEach(t) && row.rule.ClientBlock? && row.rule.clientName == name && row.id !in t
    requires forall id :: !IsBlockOf(t, name, id)
    ensures OneBlockEach(t[row.id := row])
    ensures forall n, i :: IsBlockOf(t[row.id := row], n, i) <==> IsBlockOf(t, n, i) || (n == name && i == row.id)
  {
    var t' := t[row.id := row];
    forall n, i
      ensures IsBlockOf(t', n, i) <==> IsBlockOf(t, n, i) || (n == name && i == row.id)
    {
    }
    hide IsBlockOf;
    forall n, i, j | IsBlockOf(t', n, i) && IsBlockOf(t', n, j)
      ensures i == j
    {
      assert n == name ==> i == row.id && j == row.id;
    }
  }

  /** The commands of a block: its row comes into force, or nothing accounts for the new rule. */
  lemma IssueKeepsInv(env: Env, s: System, k: nat, works: bool)
    requires Inv(s)
    ensures Inv(Do(env, s, Issue(k, works)))
  {
    hide Accounts, InFlight, Apply;
    var s' := Do(env, s, Issue(k, works));
    if k < |s.calls| && s.calls[k].Applying? {
      var row := s.calls[k].row;
      forall name
        ensures Accounts(s', name)
      {
        forall id
          ensures InFlight(s'.calls, id) <==> InFlight(s.calls, id) && (works ==> id != row.id)
        {
          InFlightWithout(s.calls, k, if works then Finished else Compensating(row), id);
        }
        InFlightWithout(s.calls, k, Finished, row.id);
        if works { IssueAccounts(s, s', row, name); } else { SameAccount(s, s', name); }
      }
    }
  }

  lemma IssueAccounts(s: System, s': System, row: Row, name: string)
    requires Accounts(s, name) && row.rule.ClientBlock? && InFlight(s.calls, row.id) && OneBlockEach(s.fw.table)
    requires row.id in s.fw.table ==> s.fw.table[row.id] == row
    requires s'.fw == s.fw.(live := Apply(s.fw.live, row)) && s'.undone == s.undone
    requires s'.extra == if row.id in s.fw.table then s.extra else s.extra + multiset{row.rule.clientName}
    requires forall id :: InFlight(s'.calls, id) <==> InFlight(s.calls, id) && id != row.id
    ensures Accounts(s', name)
  {
    hide ListsBlocks, Ips, Apply, InFlight;
    var ips := Ips(s.fw.live, name);
    var me := row.rule.clientName;
    ApplyLists(s.fw.live, row, name, ips);
    ListsIps(s'.fw.live, name, if name == me then [row.rule.clientIp] + ips else ips);
    var here := row.id in s.fw.table;
    assert here ==> IsBlockOf(s.fw.table, me, row.id);
    forall id
      ensures InForce(s', name, id) <==> InForce(s, name, id) || (here && name == me && id == row.id)
    {
    }
    assert here && name == me ==> InForce(s', name, row.id) && forall id :: !InForce(s, name, id);
  }

  lemma CompensateKeepsInv(env: Env, s: System, k: nat)
    requires Inv(s)
    ensures Inv(Do(env, s, Compensate(k)))
  {
    hide Accounts, InFlight, ListsBlocks;
    var s' := Do(env, s, Compensate(k));
    if k < |s.calls| && s.calls[k].Compensating? {
      var row := s.calls[k].row;
      FewerRows(s.fw.table, row.id);
      forall name
        ensures Accounts(s', name)
      {
        forall id
          ensures InFlight(s'.calls, id) <==> InFlight(s.calls, id) && id != row.id
        {
          InFlightWithout(s.calls, k, Finished, id);
        }
        assert InFlight(s.calls, row.id) by { InFlightWithout(s.calls, k, Finished, row.id); }
        assert forall id :: IsBlockOf(s'.fw.table, name, id) <==> IsBlockOf(s.fw.table, name, id) && id != row.id;
        SameAccount(s, s', name);
      }
    }
  }

  lemma FewerRows(t: Table, id: int)
    requires OneBlockEach(t)
    ensures OneBlockEach(t - {id})
  {
    forall name, i | IsBlockOf(t - {id}, name, i)
      ensures IsBlockOf(t, name, i)
    {
    }
  }

  // ---------- unblocking ----------

  lemma UnblockKeepsInv(env: Env, s: System, name: string)
    requires Inv(s)
    ensures Inv(Do(env, s, Action.Unblock(name, true)))
  {
    hide Inv, InFlight, Unapply, BlockRow;
    var s' := Do(env, s, Action.Unblock(name, true));
    var b := BlockRow(s.fw.table, name);
    if b.Some? && IsBlockOf(s.fw.table, name, b.value) {
      var row := s.fw.table[b.value];
      var ips := Ips(s.fw.live, name);
      AccountLists(s, name);
      UnapplyLists(s.fw.live, row, name, ips, ips);
      if row.rule.clientIp in ips {
        RowUnblocked(s, s', b.value);
      } else {
        UnapplyNothing(s.fw.live, row, ips);
        assert s' == s;
      }
    }
  }

  lemma RowUnblocked(s: System, s': System, id: int)
    requires Inv(s) && id in s.fw.table && s.fw.table[id].rule.ClientBlock?
    requires s.fw.table[id].rule.clientIp in Ips(s.fw.live, s.fw.table[id].rule.clientName)
    requires s'.fw == Fw(s.fw.table - {id}, s.fw.nextId, Unapply(s.fw.live, s.fw.table[id]).0)
    requires s'.calls == s.calls && s'.extra == s.extra
    requires s'.undone
             == if InFlight(s.calls, id) then s.undone + multiset{s.fw.table[id].rule.clientName} else s.undone
    ensures Inv(s')
  {
    hide Accounts, InFlight, Unapply, Ips;
    FewerRows(s.fw.table, id);
    forall n
      ensures Accounts(s', n)
    {
      assert Accounts(s, n) && Accounts(s, s.fw.table[id].rule.clientName);
      UnblockAccounts(s, s', id, n);
    }
  }

  lemma AccountLists(s: System, name: string)
    requires Inv(s)
    ensures ListsBlocks(s.fw.live, name, Ips(s.fw.live, name))
  {
    hide ListsBlocks, CallsInv;
    assert Accounts(s, name);
  }

  lemma UnapplyNothing(live: LiveChains, row: Row, ips: seq<string>)
    requires row.rule.ClientBlock? && ListsBlocks(live, row.rule.clientName, ips) && row.rule.clientIp !in ips
    ensures Unapply(live, row) == (live, false)
  {
    hide BlocksOf, Printed, Unapply;
    PrintedIs(row, FORWARD);
    MapWithout(FORWARD, row.rule.clientName, ips, row.rule.clientIp);
    MemberBlocks(live, row, FORWARD);
    NoneDeleted(live, row);
  }

  lemma UnblockAccounts(s: System, s': System, id: int, name: string)
    requires id in s.fw.table && s.fw.table[id].rule.ClientBlock? && OneBlockEach(s.fw.table)
    requires Accounts(s, name) && Accounts(s, s.fw.table[id].rule.clientName)
    requires s.fw.table[id].rule.clientIp in Ips(s.fw.live, s.fw.table[id].rule.clientName)
    requires s'.fw.live == Unapply(s.fw.live, s.fw.table[id]).0 && s'.fw.table == s.fw.table - {id}
    requires s'.calls == s.calls && s'.extra == s.extra
    requires s'.undone
             == if InFlight(s.calls, id) then s.undone + multiset{s.fw.table[id].rule.clientName} else s.undone
    ensures Accounts(s', name)
  {
    hide ListsBlocks, Ips, Unapply, InFlight;
    var row := s.fw.table[id];
    var me, ip := row.rule.clientName, row.rule.clientIp;
    var ips := Ips(s.fw.live, name);
    UnapplyLists(s.fw.live, row, name, ips, Ips(s.fw.live, me));
    ListsIps(s'.fw.live, name, if name == me then Without(ips, ip) else ips);
    assert IsBlockOf(s.fw.table, me, id);
    forall i
      ensures IsBlockOf(s'.fw.table, name, i) <==> IsBlockOf(s.fw.table, name, i) && i != id
      ensures InForce(s', name, i) <==> InForce(s, name, i) && i != id
      ensures InForce(s', name, i) ==> s'.fw.table[i] == s.fw.table[i] && name != me
    {
    }
    assert name == me ==> (InForce(s, name, id) <==> !InFlight(s.calls, id));
    assert name == me ==> forall i :: InForce(s, name, i) ==> i == id;
    assert name != me ==> forall i :: InForce(s, name, i) ==> i != id;
  }

  // ---------- resyncing ----------

  lemma ReadKeepsInv(env: Env, s: System, rows: seq<Row>)
    requires Inv(s)
    ensures Inv(Do(env, s, Read(rows)))
  {
    hide Accounts, InFlight, ListsBlocks;
    var s' := Do(env, s, Read(rows));
    if s' != s {
      assert s'.calls[..|s.calls|] == s.calls;
      forall name
        ensures Accounts(s', name)
      {
        forall id { InFlightWith(s.calls, Reapplying(rows), id); }
        SameAccount(s, s', name);
      }
    }
  }

  lemma ReapplyKeepsInv(env: Env, s: System, k: nat)
    requires Inv(s)
    ensures Inv(Do(env, s, Reapply(k)))
  {
    hide Accounts, InFlight, Apply, Unapply, Ips;
    var s' := Do(env, s, Reapply(k));
    if k < |s.calls| && s.calls[k].Reapplying? && s.calls[k].rows != [] {
      var row := s.calls[k].rows[0];
      assert row in s.calls[k].rows;
      forall name
        ensures Accounts(s', name)
      {
        forall id { InFlightIdle(s.calls, k, Reapplying(s.calls[k].rows[1..]), id); }
        assert Accounts(s, row.rule.clientName);
        ReapplyAccounts(s, s', row, name);
      }
    }
  }

  /** A resync that finds the rule moves it to the front; one that does not adds a rule no row accounts for. */
  lemma ReapplyAccounts(s: System, s': System, row: Row, name: string)
    requires row.rule.ClientBlock? && Accounts(s, name) && Accounts(s, row.rule.clientName)
    requires s'.fw == s.fw.(live := Apply(Unapply(s.fw.live, row).0, row)) && s'.undone == s.undone
    requires s'.extra == if row.rule.clientIp in Ips(s.fw.live, row.rule.clientName) then s.extra
                         else s.extra + multiset{row.rule.clientName}
    requires forall id :: InFlight(s'.calls, id) <==> InFlight(s.calls, id)
    ensures Accounts(s', name)
  {
    hide ListsBlocks, Ips, Apply, Unapply, InFlight;
    var me, ip := row.rule.clientName, row.rule.clientIp;
    var ips := Ips(s.fw.live, name);
    var ips' := if name == me then [ip] + Without(ips, ip) else ips;
    ReapplyLists(s.fw.live, row, name, ips, Ips(s.fw.live, me));
    ListsIps(s'.fw.live, name, ips');
    assert forall id :: InForce(s', name, id) <==> InForce(s, name, id);
    StillListed(ips, ip);
  }

  lemma {:induction false} StillListed(ips: seq<string>, ip: string)
    ensures forall x :: x in ips ==> x in [ip] + Without(ips, ip)
  {
    if ips != [] && ips[0] != ip {
      StillListed(ips[1..], ip);
      assert forall x :: x in ips ==> x == ips[0] || x in ips[1..];
    }
  }

  lemma ElsewhereKeepsInv(env: Env, s: System, fw: Fw)
    requires Inv(s)
    ensures Inv(Do(env, s, Elsewhere(fw)))
  {
    hide InFlight, Accounts, SameBlocks, CallsInv;
    if SameBlocks(s.fw, fw) {
      SameRows(s.fw, fw);
      BlockIdsKnown(s, fw);
      forall name
        ensures Accounts(s.(fw := fw), name)
      {
        ElsewhereAccounts(s, fw, name);
      }
    }
  }

  lemma SameRows(a: Fw, b: Fw)
    requires SameBlocks(a, b) && OneBlockEach(a.table)
    ensures WellKept(b) && OneBlockEach(b.table)
    ensures forall name, id :: IsBlockOf(b.table, name, id) <==> IsBlockOf(a.table, name, id)
    ensures forall name, id :: IsBlockOf(a.table, name, id) ==> b.table[id] == a.table[id]
  {
    hide BlocksOf;
    forall name, id
      ensures IsBlockOf(b.table, name, id) <==> IsBlockOf(a.table, name, id)
      ensures IsBlockOf(a.table, name, id) ==> b.table[id] == a.table[id]
    {
    }
  }

  lemma ElsewhereAccounts(s: System, fw: Fw, name: string)
    requires Accounts(s, name) && SameBlocks(s.fw, fw) && OneBlockEach(s.fw.table)
    ensures Accounts(s.(fw := fw), name)
  {
    hide BlocksOf, InFlight, Accounts;
    SameRows(s.fw, fw);
    SameAccount(s, s.(fw := fw), name);
  }

  /** What a call in flight knows about its row still holds. */
  lemma BlockIdsKnown(s: System, fw: Fw)
    requires CallsInv(s.fw, s.calls) && SameBlocks(s.fw, fw)
    ensures CallsInv(fw, s.calls)
  {
  }

  lemma DoKeepsInv(env: Env, s: System, a: Action)
    requires Inv(s)
    ensures Inv(Do(env, s, a))
  {
    hide Inv;
    match a {
      case Block(who, name, ip) => BlockKeepsInv(env, s, who, name, ip);
      case Issue(k, works) => IssueKeepsInv(env, s, k, works);
      case Compensate(k) => CompensateKeepsInv(env, s, k);
      case Unblock(name, works) => UnblockKeepsInv(env, s, name);
      case Read(rows) => ReadKeepsInv(env, s, rows);
      case Reapply(k) => ReapplyKeepsInv(env, s, k);
      case Elsewhere(fw) => ElsewhereKeepsInv(env, s, fw);
    }
  }

  /** Nothing in flight, and rows and live block rules agree. */
  ghost predicate Start(s: System) {
    s.calls == [] && s.extra == multiset{} && s.undone == multiset{} && Inv(s)
  }

  lemma {:induction false} ExecInv(env: Env, s: System, schedule: seq<Action>)
    requires Start(s)
    ensures Inv(Exec(env, s, schedule))
  {
    hide Inv, Do;
    if schedule != [] {
      ExecInv(env, s, schedule[..|schedule| - 1]);
      DoKeepsInv(env, Exec(env, s, schedule[..|schedule| - 1]), schedule[|schedule| - 1]);
    }
  }

  // ---------- the main results ----------

  ghost predicate Quiet(s: System, name: string) {
    forall k :: 0 <= k < |s.calls| && Busy(s.calls[k]) && s.calls[k].row.rule.ClientBlock? ==>
      s.calls[k].row.rule.clientName != name
  }

  /** The client has a block row and one block rule in each of FORWARD and INPUT, or none of them. */
  ghost predicate Agrees(s: System, name: string) {
    var blocked := exists id :: IsBlockOf(s.fw.table, name, id);
    |BlocksOf(s.fw.live, FORWARD, name)| == |BlocksOf(s.fw.live, INPUT, name)| == Bit(blocked)
  }

  lemma QuietIsInForce(s: System, name: string)
    requires Inv(s) && Quiet(s, name)
    ensures Blocked(s, name) <==> exists id :: IsBlockOf(s.fw.table, name, id)
  {
    hide Accounts;
    forall id | IsBlockOf(s.fw.table, name, id)
      ensures InForce(s, name, id)
    {
    }
  }

  /** In every interleaving of blocks, unblocks and resyncs a name has at most one block row and as many rules in
      FORWARD as in INPUT; and with no block call in flight for it, rows and rules agree if and only if every rule that
      went live without a row was undone. */
  lemma BlocksAgreeIff(env: Env, s: System, schedule: seq<Action>, name: string)
    requires Start(s)
    ensures var t := Exec(env, s, schedule);
            && (forall i, j :: IsBlockOf(t.fw.table, name, i) && IsBlockOf(t.fw.table, name, j) ==> i == j)
            && |BlocksOf(t.fw.live, FORWARD, name)| == |BlocksOf(t.fw.live, INPUT, name)|
            && (Quiet(t, name) ==> (Agrees(t, name) <==> t.extra[name] == t.undone[name]))
  {
    hide Exec, BlocksOf, IsBlockOf, Quiet;
    ExecInv(env, s, schedule);
    var t := Exec(env, s, schedule);
    assert Accounts(t, name);
    if Quiet(t, name) { QuietIsInForce(t, name); }
  }

  /** While no rule goes live without a row, rows and rules agree: so in every schedule without resyncs. */
  lemma BlocksAgree(env: Env, s: System, schedule: seq<Action>, name: string)
    requires Start(s) && Quiet(Exec(env, s, schedule), name) && Exec(env, s, schedule).extra[name] == 0
    ensures Agrees(Exec(env, s, schedule), name)
  {
    hide Exec, BlocksOf, IsBlockOf, Quiet;
    ExecInv(env, s, schedule);
    var t := Exec(env, s, schedule);
    assert Accounts(t, name);
    NothingUndone(t, name);
    BlocksAgreeIff(env, s, schedule, name);
  }

  lemma NothingUndone(s: System, name: string)
    requires Accounts(s, name) && s.extra[name] == 0
    ensures s.undone[name] == 0
  {
    hide ListsBlocks, InFlight;
    if id :| InForce(s, name, id) {
      assert s.fw.table[id].rule.clientIp in Ips(s.fw.live, name);
    }
  }

  /** Without resyncs nothing ever goes live without a row. */
  lemma {:induction false} NothingExtra(env: Env, s: System, schedule: seq<Action>)
    requires Start(s) && forall i :: 0 <= i < |schedule| ==> !schedule[i].Read?
    ensures Exec(env, s, schedule).extra == multiset{}
    ensures forall k :: 0 <= k < |Exec(env, s, schedule).calls| ==> !Exec(env, s, schedule).calls[k].Reapplying?
    ensures forall k :: 0 <= k < |Exec(env, s, schedule).calls| && Busy(Exec(env, s, schedule).calls[k]) ==>
              Exec(env, s, schedule).calls[k].row.id in Exec(env, s, schedule).fw.table
  {
    hide Inv;
    if schedule == [] {
    } else {
      var last := |schedule| - 1;
      var before := Exec(env, s, schedule[..last]);
      assert forall i :: 0 <= i < last ==> schedule[..last][i] == schedule[i];
      NothingExtra(env, s, schedule[..last]);
      ExecInv(env, s, schedule[..last]);
      StepAddsNothing(env, before, schedule[last]);
    }
  }

  lemma StepAddsNothing(env: Env, s: System, a: Action)
    requires Inv(s) && !a.Read? && s.extra == multiset{}
    requires forall k :: 0 <= k < |s.calls| ==> !s.calls[k].Reapplying?
    requires forall k :: 0 <= k < |s.calls| && Busy(s.calls[k]) ==> s.calls[k].row.id in s.fw.table
    ensures var s' := Do(env, s, a);
            && s'.extra == multiset{} && (forall k :: 0 <= k < |s'.calls| ==> !s'.calls[k].Reapplying?)
            && (forall k :: 0 <= k < |s'.calls| && Busy(s'.calls[k]) ==> s'.calls[k].row.id in s'.fw.table)
  {
    hide Accounts, MaxPosition, Apply, Unapply, Ips, BlocksOf;
    if a.Unblock? && a.works {
      NotUndone(s, a.name);
    }
  }

  /** An unblock then finds no rule of a block in flight. */
  lemma NotUndone(s: System, name: string)
    requires Inv(s) && s.extra == multiset{}
    ensures !Undoes(s, name)
    ensures forall k :: 0 <= k < |s.calls| && Busy(s.calls[k]) && s.calls[k].row.id in s.fw.table ==>
              s.calls[k].row.id in UnblockClient(s.fw, name).fw.table
  {
    hide InFlight, Unapply, BlockRow, CallsInv, ListsBlocks, Ips;
    var b := BlockRow(s.fw.table, name);
    if b.Some? && IsBlockOf(s.fw.table, name, b.value) {
      var row := s.fw.table[b.value];
      AccountLists(s, name);
      UnapplyLists(s.fw.live, row, name, Ips(s.fw.live, name), Ips(s.fw.live, name));
      assert Accounts(s, name);
      if InFlight(s.calls, b.value) {
        assert !Blocked(s, name);
        assert Ips(s.fw.live, name) == [];
      }
    }
    forall k | 0 <= k < |s.calls| && Busy(s.calls[k]) && s.calls[k].row.id in s.fw.table
      ensures s.calls[k].row.id in UnblockClient(s.fw, name).fw.table
    {
      IsInFlight(s.calls, k);
    }
  }

  lemma IsInFlight(calls: seq<Call>, k: nat)
    requires k < |calls| && Busy(calls[k])
    ensures InFlight(calls, calls[k].row.id)
  {
  }

  // ---------- a resync in the middle of a block ----------

  const NOTHING := System(Fw(map[], 1, LiveChains([], [], [], [])), [], multiset{}, multiset{})

  ghost function FirstBlock(name: string, ip: string): Row {
    Row(1, ClientBlock(name, ip), "Block " + name, true, MaxPosition({}) + 1.0)
  }

  ghost function Interrupted(name: string, ip: string): seq<Action> {
    [Action.Block(None, name, ip), Read([FirstBlock(name, ip)]), Reapply(1), Issue(0, true)]
  }

  /** A resync reads the row that a block request has committed and applies it, and then the request does: rows and
      rules do not agree, and after an unblock the client has no row and is blocked all the same. */
  lemma ResyncInsideABlock(env: Env, name: string, ip: string)
    ensures Start(NOTHING)
    ensures var t := Exec(env, NOTHING, Interrupted(name, ip));
            var u := Exec(env, NOTHING, Interrupted(name, ip) + [Action.Unblock(name, true)]);
            && Quiet(t, name) && !Agrees(t, name)
            && (forall id :: !IsBlockOf(u.fw.table, name, id)) && BlocksOf(u.fw.live, FORWARD, name) != []
  {
    hide Do, Exec, Inv, BlocksOf, UnblockClient;
    var schedule := Interrupted(name, ip);
    NothingStarts();
    InterruptedRun(env, name, ip);
    BlocksAgreeIff(env, NOTHING, schedule, name);
    var t := Exec(env, NOTHING, schedule);
    ExecInv(env, NOTHING, schedule);
    ExecNext(env, NOTHING, schedule, Action.Unblock(name, true));
    var u := Do(env, t, Action.Unblock(name, true));
    UnblocksRow(env, t, name);
    BlocksAgreeIff(env, NOTHING, schedule + [Action.Unblock(name, true)], name);
  }

  lemma NothingStarts()
    ensures Start(NOTHING)
  {
    forall name
      ensures Accounts(NOTHING, name)
    {
      assert BlocksOf(NOTHING.fw.live, FORWARD, name) == [] && BlocksOf(NOTHING.fw.live, INPUT, name) == [];
    }
  }

  lemma ExecNext(env: Env, s: System, schedule: seq<Action>, a: Action)
    ensures Exec(env, s, schedule + [a]) == Do(env, Exec(env, s, schedule), a)
  {
    hide Do;
    assert (schedule + [a])[..|schedule|] == schedule;
  }

  lemma InterruptedRun(env: Env, name: string, ip: string)
    ensures var t := Exec(env, NOTHING, Interrupted(name, ip));
            && t.fw.table == map[1 := FirstBlock(name, ip)] && t.calls == [Finished, Reapplying([])]
            && t.extra == multiset{name} && t.undone == multiset{}
  {
    hide Do, MaxPosition;
    var row := FirstBlock(name, ip);
    var c1 := [Action.Block(None, name, ip)];
    assert [] + c1 == c1 && c1 + [Read([row])] == [Action.Block(None, name, ip), Read([row])];
    ExecNext(env, NOTHING, [], Action.Block(None, name, ip));
    FirstCommit(env, name, ip);
    var s1 := Exec(env, NOTHING, c1);
    ExecNext(env, NOTHING, c1, Read([row]));
    SecondReads(env, s1, row);
    var c2 := c1 + [Read([row])];
    var s2 := Exec(env, NOTHING, c2);
    ExecNext(env, NOTHING, c2, Reapply(1));
    ThirdReapplies(env, s2, row);
    var c3 := c2 + [Reapply(1)];
    ExecNext(env, NOTHING, c3, Issue(0, true));
    FourthIssues(env, Exec(env, NOTHING, c3), row);
    assert c3 + [Issue(0, true)] == Interrupted(name, ip);
  }

  lemma FirstCommit(env: Env, name: string, ip: string)
    ensures Do(env, NOTHING, Action.Block(None, name, ip))
            == System(Fw(map[1 := FirstBlock(name, ip)], 2, NOTHING.fw.live), [Applying(FirstBlock(name, ip))],
                      multiset{}, multiset{})
  {
    hide MaxPosition;
    assert AllRows(map[]) == {};
    assert forall id :: !IsBlockOf(map[], name, id);
  }

  lemma SecondReads(env: Env, s: System, row: Row)
    requires s.fw.table == map[1 := row] && row.id == 1 && row.rule.ClientBlock?
    ensures Do(env, s, Read([row])) == s.(calls := s.calls + [Reapplying([row])])
  {
  }

  lemma ThirdReapplies(env: Env, s: System, row: Row)
    requires s.fw.live == NOTHING.fw.live && s.calls == [Applying(row), Reapplying([row])] && row.rule.ClientBlock?
    ensures var s' := Do(env, s, Reapply(1));
            && s'.calls == [Applying(row), Reapplying([])] && s'.extra == s.extra + multiset{ClientOf(row)}
            && s'.undone == s.undone && s'.fw.table == s.fw.table
  {
    hide Apply, Unapply;
    assert BlocksOf(s.fw.live, FORWARD, ClientOf(row)) == [];
    assert [row][1..] == [];
  }

  lemma FourthIssues(env: Env, s: System, row: Row)
    requires s.calls == [Applying(row), Reapplying([])] && row.id in s.fw.table
    ensures Do(env, s, Issue(0, true))
            == s.(fw := s.fw.(live := Apply(s.fw.live, row)), calls := [Finished, Reapplying([])])
  {
    hide Apply;
  }

  /** With its commands issued a block can be undone. */
  lemma UnblocksRow(env: Env, s: System, name: string)
    requires Inv(s) && Quiet(s, name)
    ensures var u := Do(env, s, Action.Unblock(name, true));
            && (forall id :: !IsBlockOf(u.fw.table, name, id)) && Quiet(u, name)
            && u.extra == s.extra && u.undone == s.undone
  {
    hide Unapply, CallsInv, ListsBlocks, Ips;
    var b := BlockRow(s.fw.table, name);
    if b.Some? {
      assert IsBlockOf(s.fw.table, name, b.value);
      QuietRow(s, name, b.value);
      AccountLists(s, name);
      assert Accounts(s, name);
      UnapplyLists(s.fw.live, s.fw.table[b.value], name, Ips(s.fw.live, name), Ips(s.fw.live, name));
    }
  }

  lemma QuietRow(s: System, name: string, id: int)
    requires Inv(s) && Quiet(s, name) && IsBlockOf(s.fw.table, name, id)
    ensures InForce(s, name, id)
  {
    hide Accounts;
  }

  // ---------- run alone ----------

  /** Run without interruption, the two steps of a block request are the operation of the sequential engine. */
  lemma BlockAlone(env: Env, s: System, who: Option<string>, name: string, ip: string)
    requires BlockRow(s.fw.table, name).None? && (env.hubMode || who != Some(ip))
    ensures Do(env, Do(env, s, Action.Block(who, name, ip)), Issue(|s.calls|, true)).fw
            == BlockClient(env, s.fw, who, name, ip).fw
  {
    hide Apply, MaxPosition, AllRows;
  }

  /** And a resync that has read the block rows applies them as the sequential one does. */
  lemma {:induction false} ReappliesAlone(env: Env, s: System, k: nat)
    requires k < |s.calls| && s.calls[k].Reapplying? && forall r :: r in s.calls[k].rows ==> r.rule.ClientBlock?
    ensures ReapplyAll(env, s, k, |s.calls[k].rows|).fw
            == s.fw.(live := ReapplyBlocks(s.fw.live, s.calls[k].rows))
    decreases if k < |s.calls| && s.calls[k].Reapplying? then |s.calls[k].rows| else 0
  {
    hide Apply, Unapply, Ips;
    var rows := s.calls[k].rows;
    if rows != [] {
      assert rows[0] in rows;
      var t := Do(env, s, Reapply(k));
      assert t.fw == s.fw.(live := Apply(Unapply(s.fw.live, rows[0]).0, rows[0]));
      assert t.calls[k] == Reapplying(rows[1..]);
      ReappliesAlone(env, t, k);
    }
  }

  ghost function ReapplyAll(env: Env, s: System, k: nat, n: nat): System
    decreases n
  {
    if n == 0 then s else ReapplyAll(env, Do(env, s, Reapply(k)), k, n - 1)
  }

  /** A block whose commands fail leaves table and chains as they were. */
  lemma FailedBlockLeavesNothing(env: Env, s: System, who: Option<string>, name: string, ip: string)
    requires WellKept(s.fw) && BlockRow(s.fw.table, name).None? && (env.hubMode || who != Some(ip))
    ensures var k := |s.calls|;
            var after := Do(env, Do(env, Do(env, s, Action.Block(who, name, ip)), Issue(k, false)), Compensate(k));
            after.fw.table == s.fw.table && after.fw.live == s.fw.live
  {
    hide MaxPosition;
    assert s.fw.nextId !in s.fw.table;
  }
}
