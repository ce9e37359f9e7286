/** The self-lockout guard simulates exactly the rule set that is then committed. */
module SelfLockout {
  import opened Wrappers
  import opened Sequences
  import opened Rules
  import opened Lockout
  import opened Firewall
  import opened Edits
  import opened Mirror

  /** The verdict of a table for an address. */
  ghost predicate Allows(env: Env, t: Table, ip: string) {
    WouldAllow(env, EnabledInput(t), ip)
  }

  /** With this table in force the requester would not reach the web UI; nobody asks in hub mode, or without one. */
  ghost predicate CutsOff(env: Env, who: Option<string>, t: Table) {
    who.Some? && !env.hubMode && !Allows(env, t, who.value)
  }

  lemma LocksOutIs(env: Env, who: Option<string>, simulated: set<Row>)
    ensures LocksOut(env, who, simulated) <==> who.Some? && !env.hubMode && !WouldAllow(env, simulated, who.value)
  {
  }

  lemma SortedAppend(rows: set<Row>, a: Row)
    requires DistinctIds(rows) && forall r :: r in rows ==> Less(r, a) && r.id != a.id
    ensures Sorted(rows + {a}) == Sorted(rows) + [a]
  {
    var s := Sorted(rows);
    SortedIsAscending(rows);
    forall x
      ensures x in s <==> x in rows
    {
      assert x in s <==> x in Elements(s);
    }
    assert Elements(s + [a]) == rows + {a};
    SortedIs(rows + {a}, s + [a]);
  }

  /** A row that is last, added under any id and any top position, decides alike. */
  lemma LastRowDecides(env: Env, rows: set<Row>, a: Row, b: Row, ip: string)
    requires DistinctIds(rows) && a.rule == b.rule
    requires forall r :: r in rows ==> Less(r, a) && Less(r, b) && r.id != a.id && r.id != b.id
    ensures WouldAllow(env, rows + {a}, ip) == WouldAllow(env, rows + {b}, ip)
  {
    hide FirstMatchAllows, Sorted, Less;
    SortedAppend(rows, a);
    SortedAppend(rows, b);
    VerdictReadsRulesOnly(env, Sorted(rows) + [a], Sorted(rows) + [b], ip);
  }

  /** Adding: the simulated row is numbered -1 and placed by the INPUT rows only, the committed one by all rows. */
  lemma AddGuardExact(env: Env, fw: Fw, who: Option<string>, r: Rule, note: string, ip: string)
    requires WellKept(fw) && r.Input? && (forall id :: id in fw.table ==> id >= 0) && fw.nextId >= 0
    requires AddRule(env, fw, who, r, note).result != Rejected
    ensures WouldAllow(env, SimulatedAdd(fw.table, r), ip) == Allows(env, AddRule(env, fw, who, r, note).fw.table, ip)
  {
    hide Apply, LocksOut, MaxPosition, UnrestrictedDrop, WouldAllow, EnabledIn;
    var t, rows := fw.table, EnabledInput(fw.table);
    var b := Row(fw.nextId, r, note, true, MaxPosition(AllRows(t)) + 1.0);
    InputRows(t);
    EnabledDistinct(t, INPUT);
    MaxPositionBounds(rows);
    MaxPositionBounds(AllRows(t));
    AddedInput(t, b);
    LastRowDecides(env, rows, Row(-1, r, "", true, MaxPosition(rows) + 1.0), b, ip);
  }

  lemma InputRows(t: Table)
    ensures forall x :: x in EnabledInput(t) ==> x in AllRows(t) && exists id :: id in t && t[id] == x
  {
  }

  lemma AddedInput(t: Table, row: Row)
    requires row.id !in t && row.rule.Input? && row.enabled
    ensures EnabledInput(t[row.id := row]) == EnabledInput(t) + {row}
  {
    var t' := t[row.id := row];
    forall x
      ensures x in EnabledInput(t') <==> x in EnabledInput(t) || x == row
    {
      if x in EnabledInput(t) {
        var id :| id in t && t[id] == x && t[id].enabled && INPUT in ChainsFor(t[id].rule);
        assert t'[id] == x;
      }
      if x == row { assert t'[row.id] == x; }
    }
  }

  /** What the guard simulates before a row is switched on. */
  ghost function WithEnabled(t: Table, id: int): set<Row>
    requires id in t
  {
    OtherInput(t, id) + {t[id].(enabled := true)}
  }

  /** Switching one INPUT row on or off, deleting it or moving it: the simulated set is the committed one. */
  lemma ChangeGuardExact(env: Env, fw: Fw, who: Option<string>, id: int, ip: string)
    requires WellKept(fw) && id in fw.table && fw.table[id].rule.Input?
    ensures DeleteRule(env, fw, who, id).result != Rejected ==>
              EnabledInput(DeleteRule(env, fw, who, id).fw.table) == OtherInput(fw.table, id)
    ensures DisableRule(env, fw, who, id).result != Rejected && fw.table[id].enabled ==>
              EnabledInput(DisableRule(env, fw, who, id).fw.table) == OtherInput(fw.table, id)
    ensures EnableRule(env, fw, who, id).result != Rejected ==>
              EnabledInput(EnableRule(env, fw, who, id).fw.table) == WithEnabled(fw.table, id)
  {
    hide Unapply, Apply, Rebuilt, LocksOut, Reached, Stops, AfterUnapply;
    var t, row := fw.table, fw.table[id];
    forall b, x
      ensures x in EnabledInput(t[id := row.(enabled := b)])
         <==> x in OtherInput(t, id) || (b && x == row.(enabled := true))
    {
      var t' := t[id := row.(enabled := b)];
      assert forall j :: j in t && j != id ==> t'[j] == t[j];
      if x in OtherInput(t, id) {
        assert t'[x.id] == x;
      }
      if b && x == row.(enabled := true) {
        assert t'[id] == x;
      }
    }
    assert EnabledInput(t - {id}) == OtherInput(t, id) by {
      assert forall j :: j in t && j != id ==> (t - {id})[j] == t[j];
      forall x
        ensures x in EnabledInput(t - {id}) <==> x in OtherInput(t, id)
      {
        if x in OtherInput(t, id) { assert (t - {id})[x.id] == x; }
      }
    }
  }

  lemma MoveGuardExact(t: Table, id: int, p: real)
    requires Keyed(t) && id in t && t[id].rule.Input?
    ensures EnabledInput(t[id := t[id].(position := p)]) == SimulatedMove(t, id, p)
  {
    var t' := t[id := t[id].(position := p)];
    assert forall j :: j in t && j != id ==> t'[j] == t[j];
    forall x
      ensures x in EnabledInput(t') <==> x in SimulatedMove(t, id, p)
    {
      if x in OtherInput(t, id) { assert t'[x.id] == x; }
      if t[id].enabled && x == t[id].(position := p) { assert t'[id] == x; }
    }
  }

  ghost predicate PlainIds(fw: Fw) {
    WellKept(fw) && fw.nextId >= 0 && forall id :: id in fw.table ==> id >= 0
  }

  /** Calls that leave every INPUT row as it was, or are refused. */
  ghost predicate LeavesInput(t: Table, t': Table) {
    && (forall j :: j in t && t[j].rule.Input? ==> j in t' && t'[j] == t[j])
    && (forall j :: j in t' && t'[j].rule.Input? ==> j in t && t'[j] == t[j])
  }

  predicate TouchesInput(t: Table, op: Op) {
    match op
    case Add(r, _) => r.Input?
    case Toggle(id) => id in t && t[id].rule.Input?
    case Disable(id) => id in t && t[id].rule.Input?
    case Delete(id) => id in t && t[id].rule.Input?
    case Reorder(id, _, _) => id in t && t[id].rule.Input?
    case _ => false
  }

  lemma OtherCallsLeaveInput(env: Env, fw: Fw, who: Option<string>, op: Op)
    requires PlainIds(fw) && !op.Discover? && !TouchesInput(fw.table, op)
    ensures PlainIds(Step(env, fw, who, op).fw)
    ensures LeavesInput(fw.table, Step(env, fw, who, op).fw.table)
  {
    hide Step, DropPosition, MaxPosition, CanReorder;
    var e := EditOf(env, fw, who, op);
    NextIdAfter(env, fw, who, op);
    if op.Reorder? && e.Put? { InTable(fw.table, op.id, op.target); }
  }

  lemma InputCallsGuarded(env: Env, fw: Fw, ip: string, op: Op)
    requires PlainIds(fw) && !env.hubMode && TouchesInput(fw.table, op)
    requires Allows(env, fw.table, ip)
    ensures PlainIds(Step(env, fw, Some(ip), op).fw)
    ensures Allows(env, Step(env, fw, Some(ip), op).fw.table, ip)
  {
    hide Apply, Unapply, Rebuilt, DropPosition, WouldAllow, UnrestrictedDrop, EnabledInput, OtherInput, MaxPosition,
      Reached, Stops, AfterUnapply;
    var t := fw.table;
    match op {
      case Add(r, note) =>
        if AddRule(env, fw, Some(ip), r, note).result != Rejected {
          AddGuardExact(env, fw, Some(ip), r, note, ip);
        }
      case Reorder(id, target, side) =>
        if CanReorder(t, id, target) {
          MoveGuardExact(t, id, DropPosition(t, id, target, side));
        }
      case Toggle(id) => ChangeGuardExact(env, fw, Some(ip), id, ip);
      case Disable(id) => ChangeGuardExact(env, fw, Some(ip), id, ip);
      case Delete(id) => ChangeGuardExact(env, fw, Some(ip), id, ip);
    }
  }

  /** A requester whom the INPUT rows allow is still allowed by them after any of its own calls, discovery apart.
      Client blocks are not among the rows this verdict reads; see LiveVerdict for those.
      In hub mode the guard is off and nothing is claimed. */
  lemma StaysAllowed(env: Env, fw: Fw, ip: string, op: Op)
    requires PlainIds(fw) && !env.hubMode && !op.Discover?
    requires Allows(env, fw.table, ip)
    ensures PlainIds(Step(env, fw, Some(ip), op).fw)
    ensures Allows(env, Step(env, fw, Some(ip), op).fw.table, ip)
  {
    hide Step, WouldAllow;
    if TouchesInput(fw.table, op) {
      InputCallsGuarded(env, fw, ip, op);
    } else {
      OtherCallsLeaveInput(env, fw, Some(ip), op);
      SameInput(fw.table, Step(env, fw, Some(ip), op).fw.table);
    }
  }

  lemma SameInput(t: Table, t': Table)
    requires LeavesInput(t, t')
    ensures EnabledInput(t) == EnabledInput(t')
  {
  }

  /** Over every run of its own calls, the INPUT rows go on allowing the requester. */
  lemma {:induction false} NeverLockedOut(env: Env, fw: Fw, ip: string, calls: seq<Call>)
    requires PlainIds(fw) && !env.hubMode && Allows(env, fw.table, ip)
    requires forall k :: 0 <= k < |calls| ==> calls[k].who == Some(ip) && !calls[k].op.Discover?
    ensures PlainIds(Run(env, fw, calls)) && Allows(env, Run(env, fw, calls).table, ip)
  {
    hide Step, Allows;
    if calls != [] {
      var last := |calls| - 1;
      assert forall k :: 0 <= k < last ==> calls[..last][k] == calls[k];
      NeverLockedOut(env, fw, ip, calls[..last]);
      StaysAllowed(env, Run(env, fw, calls[..last]), ip, calls[last].op);
    }
  }

  /** When INPUT holds only synced rows with single ports, the table's verdict is what the kernel does. */
  lemma VerdictIsLive(env: Env, fw: Fw, ip: string)
    requires InSync(fw) && Filter(NotOwned, fw.live.At(INPUT)) == []
    requires SinglePorts(env, Ordered(fw.table, INPUT)) && env.isAddress(ip)
    ensures LiveAllows(env, fw.live.At(INPUT), ip) == Allows(env, fw.table, ip)
  {
    hide Ordered, Printed, FirstMatchAllows, LiveAllows, PrintAll, Filter;
    InputOrder(fw.table);
    OrderedFacts(fw.table, INPUT);
    AllOwned(fw.live.At(INPUT));
    assert ChainInSync(fw.table, fw.live, INPUT);
    GuardIsLive(env, Ordered(fw.table, INPUT), ip);
  }

  lemma InputOrder(t: Table)
    ensures Sorted(EnabledInput(t)) == Ordered(t, INPUT)
  {
    assert EnabledInput(t) == EnabledIn(t, INPUT);
  }

  lemma AllOwned(rules: seq<LiveRule>)
    requires Filter(NotOwned, rules) == []
    ensures Filter(Owned, rules) == rules
  {
    forall x | x in rules
      ensures Owned(x)
    {
      assert x in Filter(NotOwned, rules) <==> NotOwned(x);
    }
    FilterAll(Owned, rules);
  }
}
