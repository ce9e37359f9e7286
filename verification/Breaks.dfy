/** Which calls end by an exception behind their database commit: those that come to a port forward without a port. */
module Breaks {
  import opened Wrappers
  import opened Sequences
  import opened Rules
  import opened Lockout
  import opened Discovery
  import opened Firewall

  /** An enabled port forward lacks the port that its rule in this chain needs. */
  ghost predicate PortlessIn(t: Table, c: Chain) {
    exists id :: id in t && t[id].enabled && t[id].rule.PortForward? && LacksPort(t[id].rule, c)
  }

  predicate LacksPort(r: Rule, c: Chain) {
    r.PortForward? && ((c == PREROUTING && r.extPort.None?) || (c == FORWARD && r.targetPort.None?))
  }

  lemma StuckIff(t: Table, c: Chain)
    requires Keyed(t)
    ensures Stuck(t, c) <==> PortlessIn(t, c)
  {
    hide Sorted, EnabledIn;
    OrderedFacts(t, c);
    var rows := Ordered(t, c);
    var front := PrintableFront(rows, c);
    if Stuck(t, c) {
      assert rows[|front|] in rows;
    }
    if id :| id in t && t[id].enabled && t[id].rule.PortForward? && LacksPort(t[id].rule, c) {
      assert t[id] in rows;
      var k :| 0 <= k < |rows| && rows[k] == t[id];
      assert !CanPrint(rows[k].rule, c);
    }
  }

  lemma StopsIff(t: Table, order: seq<Chain>)
    requires Keyed(t)
    ensures Stops(t, order) <==> exists c :: c in order && PortlessIn(t, c)
  {
    hide Stuck, PortlessIn;
    forall c { StuckIff(t, c); }
  }

  /** Taking the row's rules out comes to a command that cannot be built: the first one, or the second behind a first
      one that worked. */
  predicate FailsToLeave(env: Env, fw: Fw, id: int) {
    && id in fw.table && fw.table[id].enabled && !env.hubMode
    && (LacksPort(fw.table[id].rule, PREROUTING)
        || (LacksPort(fw.table[id].rule, FORWARD) && Printed(fw.table[id], PREROUTING) in fw.live.prerouting))
  }

  /** One of these chains cannot be rebuilt to its end. */
  ghost predicate FailsToRebuild(t: Table, cs: set<Chain>) {
    exists c :: c in cs && PortlessIn(t, c)
  }

  ghost predicate Fails(env: Env, fw: Fw, op: Op) {
    match op
    case Add(_, _) => false
    case Block(_, _) => false
    case Unblock(_) => false
    case Disable(id) => FailsToLeave(env, fw, id)
    case Delete(id) => FailsToLeave(env, fw, id)
    case Toggle(id) =>
      id in fw.table
      && if fw.table[id].enabled then FailsToLeave(env, fw, id)
         else FailsToRebuild(fw.table[id := fw.table[id].(enabled := true)], ChainsFor(fw.table[id].rule))
    case Reorder(id, _, _) => id in fw.table && FailsToRebuild(fw.table, ChainsFor(fw.table[id].rule))
    case Resync => !env.hubMode && FailsToRebuild(fw.table, UsedChains(fw.table))
    case Discover => FailsToRebuild(Scanned(fw, 4).0.table, Scanned(fw, 4).1)
  }

  /** In every state: a call that is not refused ends broken if and only if it comes to such a row. */
  lemma BrokenIff(env: Env, fw: Fw, who: Option<string>, op: Op)
    requires WellKept(fw)
    ensures Step(env, fw, who, op).result == Broken <==> Step(env, fw, who, op).result != Rejected && Fails(env, fw, op)
  {
    hide AddRule, DisableRule, EnableRule, DeleteRule, ReorderRule, BlockClient, UnblockClient, DiscoverAll, ResyncAll,
      FailsToLeave, FailsToRebuild, Keyed;
    match op {
      case Add(r, note) => AddIsWhole(env, fw, who, r, note);
      case Toggle(id) =>
        LeavingBreaksIff(env, fw, who, id);
        EnablingBreaksIff(env, fw, who, id);
      case Disable(id) => LeavingBreaksIff(env, fw, who, id);
      case Delete(id) => LeavingBreaksIff(env, fw, who, id);
      case Reorder(id, target, side) => ReorderBreaksIff(env, fw, who, id, target, side);
      case Block(name, ip) => BlockIsWhole(env, fw, who, name, ip);
      case Unblock(name) => BlockIsWhole(env, fw, who, name, "");
      case Resync => ResyncBreaksIff(env, fw);
      case Discover => DiscoveryBreaksIff(env, fw);
    }
  }

  lemma AddIsWhole(env: Env, fw: Fw, who: Option<string>, r: Rule, note: string)
    ensures AddRule(env, fw, who, r, note).result != Broken
  {
    hide LocksOut, MaxPosition, Apply;
  }

  lemma BlockIsWhole(env: Env, fw: Fw, who: Option<string>, name: string, ip: string)
    ensures BlockClient(env, fw, who, name, ip).result != Broken && UnblockClient(fw, name).result != Broken
  {
    hide MaxPosition, Apply, Unapply;
  }

  lemma LeavingBreaksIff(env: Env, fw: Fw, who: Option<string>, id: int)
    ensures var r := DisableRule(env, fw, who, id).result;
            r == Broken <==> r != Rejected && FailsToLeave(env, fw, id)
    ensures var r := DeleteRule(env, fw, who, id).result;
            r == Broken <==> r != Rejected && FailsToLeave(env, fw, id)
  {
    hide LocksOut, Unapply, UnapplyBreaks, FailsToLeave;
    if id in fw.table && fw.table[id].enabled {
      UnapplyBreaksIff(env, fw, id);
    }
    assert id !in fw.table || !fw.table[id].enabled ==> !FailsToLeave(env, fw, id) by {
      OnlyEnabledLeave(env, fw, id);
    }
  }

  lemma OnlyEnabledLeave(env: Env, fw: Fw, id: int)
    ensures FailsToLeave(env, fw, id) ==> id in fw.table && fw.table[id].enabled
  {
  }

  lemma UnapplyBreaksIff(env: Env, fw: Fw, id: int)
    requires id in fw.table && fw.table[id].enabled
    ensures !env.hubMode && UnapplyBreaks(fw.live, fw.table[id]) <==> FailsToLeave(env, fw, id)
  {
    hide Printed;
  }

  lemma EnablingBreaksIff(env: Env, fw: Fw, who: Option<string>, id: int)
    requires WellKept(fw)
    ensures id in fw.table ==>
              var r, t := EnableRule(env, fw, who, id).result, fw.table[id := fw.table[id].(enabled := true)];
              r == Broken <==> r != Rejected && FailsToRebuild(t, ChainsFor(fw.table[id].rule))
  {
    hide LocksOut, Apply, Rebuilt, Reached, Stops, PortlessIn, UnrestrictedDrop, OtherInput;
    if id in fw.table {
      var t := fw.table[id := fw.table[id].(enabled := true)];
      StopsIff(t, Halves(fw.table[id].rule));
      HalvesAre(fw.table[id].rule);
    }
  }

  lemma HalvesAre(r: Rule)
    ensures !r.ClientBlock? ==> forall c :: c in Halves(r) <==> c in ChainsFor(r)
    ensures r.ClientBlock? ==> ChainsFor(r) == {}
  {
  }

  lemma ReorderBreaksIff(env: Env, fw: Fw, who: Option<string>, id: int, target: int, side: Side)
    requires WellKept(fw)
    ensures var r := ReorderRule(env, fw, who, id, target, side).result;
            r == Broken <==> r != Rejected && id in fw.table && FailsToRebuild(fw.table, ChainsFor(fw.table[id].rule))
  {
    hide LocksOut, DropPosition, Rebuilt, Reached, Stops, PortlessIn, SimulatedMove, Visited;
    if CanReorder(fw.table, id, target) {
      var t := fw.table[id := fw.table[id].(position := DropPosition(fw.table, id, target, side))];
      StopsIff(t, Visited(env, ChainsFor(fw.table[id].rule)));
      forall c
        ensures PortlessIn(t, c) <==> PortlessIn(fw.table, c)
      {
        MoveKeepsPorts(fw.table, id, DropPosition(fw.table, id, target, side), c);
      }
    }
  }

  lemma MoveKeepsPorts(t: Table, id: int, p: real, c: Chain)
    requires id in t
    ensures PortlessIn(t[id := t[id].(position := p)], c) <==> PortlessIn(t, c)
  {
    var t' := t[id := t[id].(position := p)];
    assert forall j :: j in t ==> j in t' && t'[j].rule == t[j].rule && t'[j].enabled == t[j].enabled;
  }

  lemma ResyncBreaksIff(env: Env, fw: Fw)
    requires WellKept(fw)
    ensures ResyncAll(env, fw).result == Broken <==> !env.hubMode && FailsToRebuild(fw.table, UsedChains(fw.table))
    ensures ResyncAll(env, fw).result != Rejected
  {
    hide Rebuilt, Reached, Stops, PortlessIn, Visited, UsedChains, ReapplyBlocks, Sorted;
    StopsIff(fw.table, Visited(env, UsedChains(fw.table)));
  }

  lemma DiscoveryBreaksIff(env: Env, fw: Fw)
    requires WellKept(fw)
    ensures var (after, touched) := Scanned(fw, 4);
            DiscoverAll(env, fw).result == Broken <==> FailsToRebuild(after.table, touched)
    ensures DiscoverAll(env, fw).result != Rejected
  {
    hide Rebuilt, Reached, Stops, PortlessIn, Visited, Scanned;
    var (after, touched) := Scanned(fw, 4);
    ScannedIsKeyed(fw, 4);
    StopsIff(after.table, Visited(env, touched));
  }

  lemma {:induction false} ScannedIsKeyed(fw: Fw, n: nat)
    requires WellKept(fw) && n <= 4
    ensures Keyed(Scanned(fw, n).0.table)
  {
    hide AdoptedRows, Filter;
    if n > 0 {
      ScannedIsKeyed(fw, n - 1);
      var before := Scanned(fw, n - 1).0;
      InsertedIsKeyed(before.table, ScanRows(fw.table, TARGETS[n - 1], before));
    }
  }

  lemma {:induction false} InsertedIsKeyed(t: Table, rows: seq<Row>)
    requires Keyed(t)
    ensures Keyed(Inserted(t, rows))
  {
    if rows != [] {
      InsertedIsKeyed(t, rows[..|rows| - 1]);
    }
  }
}
