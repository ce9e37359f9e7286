/** What each call answers, and what table and live chains are afterwards, read off the states before and after. */
module Answers {
  import opened Wrappers
  import opened Sequences
  import opened Rules
  import opened Lockout
  import opened Discovery
  import opened Firewall
  import opened Edits
  import opened Mirror
  import opened Adoption
  import opened SelfLockout
  import opened Reordering
  import opened BlockRules
  import opened BlockMirror
  import opened Packets

  // ---------- refusals ----------

  /** A live rule nobody may ask for: it drops whatever comes, or names a port without a protocol, or sends the server's
      own web or SSH port elsewhere. */
  predicate Unwelcome(r: LiveRule) {
    || (r.target == Target.Jump(DROP) && r.src.None? && r.dst.None? && r.dport.None?)
    || (r.dport.Some? && r.protocol.None?)
    || (r.target.DnatTo? && r.dport in {Some("443"), Some("22")})
  }

  /** The new row of an add. */
  ghost function NewRow(fw: Fw, r: Rule, note: string): Row {
    Row(fw.nextId, r, note, true, MaxPosition(AllRows(fw.table)) + 1.0)
  }

  /** Forms exist for forward, input, port-forward and source-NAT rules, and each of their commands can be built. */
  predicate HasForm(r: Rule) {
    (r.Forward? || r.Input? || r.PortForward? || r.Snat?)
    && (r.PortForward? ==> r.extPort.Some? && r.targetPort.Some?)
  }

  /** An add is refused if and only if a field is invalid, there is no form for it, one of its live rules is unwelcome,
      or the table with the new row would cut the requester off. */
  lemma AddIsRefusedIff(env: Env, fw: Fw, who: Option<string>, r: Rule, note: string)
    requires PlainIds(fw)
    ensures AddRule(env, fw, who, r, note).result == Rejected
            <==> !env.valid(r) || !HasForm(r)
                 || (exists c :: c in ChainsFor(r) && Unwelcome(Printed(NewRow(fw, r, note), c)))
                 || (r.Input? && CutsOff(env, who, fw.table[fw.nextId := NewRow(fw, r, note)]))
  {
    hide LocksOut, MaxPosition, Apply, Printed, Allows;
    UnwelcomeIff(fw, r, note);
    if r.Input? && who.Some? { AddGuardDecides(env, fw, who.value, r, note); }
    LocksOutIs(env, who, SimulatedAdd(fw.table, r));
  }

  lemma UnwelcomeIff(fw: Fw, r: Rule, note: string)
    ensures (exists c :: c in ChainsFor(r) && Unwelcome(Printed(NewRow(fw, r, note), c)))
            <==> UnrestrictedDrop(r) || PortWithoutProtocol(r) || ReservedPort(r)
  {
    hide MaxPosition;
    var row := NewRow(fw, r, note);
    match r {
      case Forward(_, _, _, _, _) => assert FORWARD in ChainsFor(r);
      case Input(_, _, _, _) => assert INPUT in ChainsFor(r);
      case PortForward(_, _, _, _, _) => assert PREROUTING in ChainsFor(r);
      case _ =>
    }
  }

  lemma AddGuardDecides(env: Env, fw: Fw, ip: string, r: Rule, note: string)
    requires PlainIds(fw) && r.Input?
    ensures WouldAllow(env, SimulatedAdd(fw.table, r), ip)
            == Allows(env, fw.table[fw.nextId := NewRow(fw, r, note)], ip)
  {
    hide MaxPosition, WouldAllow, EnabledIn;
    var t, rows := fw.table, EnabledInput(fw.table);
    InputRows(t);
    EnabledDistinct(t, INPUT);
    MaxPositionBounds(rows);
    MaxPositionBounds(AllRows(t));
    AddedInput(t, NewRow(fw, r, note));
    LastRowDecides(env, rows, Row(-1, r, "", true, MaxPosition(rows) + 1.0), NewRow(fw, r, note), ip);
  }

  /** A toggle is refused if and only if the row is not there, or is an INPUT row that would drop whatever comes, or
      whose change would cut the requester off. */
  lemma ToggleIsRefusedIff(env: Env, fw: Fw, who: Option<string>, id: int)
    requires WellKept(fw)
    ensures ToggleRule(env, fw, who, id).result == Rejected
            <==> id !in fw.table
                 || (fw.table[id].rule.Input?
                     && ((!fw.table[id].enabled && DropsAll(fw.table[id]))
                         || CutsOff(env, who, Switched(fw.table, id, !fw.table[id].enabled))))
  {
    hide Apply, Unapply, Rebuilt, LocksOut, Reached, Stops, WouldAllow, UnrestrictedDrop, EnabledInput, OtherInput;
    if id in fw.table && fw.table[id].rule.Input? {
      DropsAllIff(fw.table[id]);
      SwitchedInput(fw.table, id);
      LocksOutIs(env, who, OtherInput(fw.table, id));
      LocksOutIs(env, who, OtherInput(fw.table, id) + {fw.table[id].(enabled := true)});
    }
  }

  predicate DropsAll(row: Row) {
    var r := Printed(row, INPUT);
    r.target == Target.Jump(DROP) && r.src.None? && r.dst.None? && r.dport.None?
  }

  lemma DropsAllIff(row: Row)
    requires row.rule.Input?
    ensures DropsAll(row) <==> UnrestrictedDrop(row.rule)
  {
  }

  function Switched(t: Table, id: int, on: bool): Table
    requires id in t
  {
    t[id := t[id].(enabled := on)]
  }

  lemma SwitchedInput(t: Table, id: int)
    requires Keyed(t) && id in t && t[id].rule.Input?
    ensures EnabledInput(Switched(t, id, false)) == OtherInput(t, id)
    ensures EnabledInput(t - {id}) == OtherInput(t, id)
    ensures EnabledInput(Switched(t, id, true)) == OtherInput(t, id) + {t[id].(enabled := true)}
  {
    var on, off := Switched(t, id, true), Switched(t, id, false);
    assert forall j :: j in t && j != id ==> on[j] == t[j] && off[j] == t[j] && (t - {id})[j] == t[j];
    forall x
      ensures x in EnabledInput(off) <==> x in OtherInput(t, id)
      ensures x in EnabledInput(t - {id}) <==> x in OtherInput(t, id)
      ensures x in EnabledInput(on) <==> x in OtherInput(t, id) || x == t[id].(enabled := true)
    {
      if x in OtherInput(t, id) { assert off[x.id] == x && on[x.id] == x && (t - {id})[x.id] == x; }
      if x == t[id].(enabled := true) { assert on[id] == x; }
    }
  }

  /** Disabling and deleting are refused if and only if an INPUT row would go whose absence cuts the requester off. */
  lemma RemovalIsRefusedIff(env: Env, fw: Fw, who: Option<string>, id: int)
    requires WellKept(fw)
    ensures DisableRule(env, fw, who, id).result == Rejected
            <==> id in fw.table && fw.table[id].enabled && fw.table[id].rule.Input?
                 && CutsOff(env, who, Switched(fw.table, id, false))
    ensures DeleteRule(env, fw, who, id).result == Rejected
            <==> id in fw.table && fw.table[id].rule.Input? && CutsOff(env, who, fw.table - {id})
  {
    hide Unapply, LocksOut, WouldAllow, EnabledInput, OtherInput;
    if id in fw.table && fw.table[id].rule.Input? {
      SwitchedInput(fw.table, id);
      LocksOutIs(env, who, OtherInput(fw.table, id));
    }
  }

  /** All refusals in one place. */
  ghost predicate Refuses(env: Env, fw: Fw, who: Option<string>, op: Op) {
    match op
    case Add(r, note) =>
      || !env.valid(r) || !HasForm(r)
      || (exists c :: c in ChainsFor(r) && Unwelcome(Printed(NewRow(fw, r, note), c)))
      || (r.Input? && CutsOff(env, who, fw.table[fw.nextId := NewRow(fw, r, note)]))
    case Toggle(id) =>
      || id !in fw.table
      || (fw.table[id].rule.Input?
          && ((!fw.table[id].enabled && DropsAll(fw.table[id]))
              || CutsOff(env, who, Switched(fw.table, id, !fw.table[id].enabled))))
    case Disable(id) =>
      && id in fw.table && fw.table[id].enabled && fw.table[id].rule.Input?
      && CutsOff(env, who, Switched(fw.table, id, false))
    case Delete(id) => id in fw.table && fw.table[id].rule.Input? && CutsOff(env, who, fw.table - {id})
    case Reorder(id, target, side) =>
      || CannotDrag(fw.table, id, target)
      || (CanReorder(fw.table, id, target) && fw.table[id].rule.Input?
          && CutsOff(env, who, AfterDrop(fw.table, id, target, side)))
    case Block(name, ip) => !HasBlock(fw.table, name) && !env.hubMode && who == Some(ip)
    case Unblock(name) => exists id :: IsBlockOf(fw.table, name, id) && !fw.table[id].enabled
    case _ => false
  }

  /** A call is refused if and only if its guard holds. */
  lemma RefusedIff(env: Env, fw: Fw, who: Option<string>, op: Op)
    requires PlainIds(fw) && BlocksShown(fw)
    ensures Step(env, fw, who, op).result == Rejected <==> Refuses(env, fw, who, op)
  {
    hide AddRule, DisableRule, EnableRule, DeleteRule, ReorderRule, BlockClient, UnblockClient, DiscoverAll, ResyncAll,
      BlocksShown, CutsOff, Unwelcome, AfterDrop, HasForm, CannotDrag, CanReorder, DropsAll;
    match op {
      case Add(r, note) => AddIsRefusedIff(env, fw, who, r, note);
      case Toggle(id) => ToggleIsRefusedIff(env, fw, who, id);
      case Disable(id) => RemovalIsRefusedIff(env, fw, who, id);
      case Delete(id) => RemovalIsRefusedIff(env, fw, who, id);
      case Reorder(id, target, side) => ReorderIsRefusedIff(env, fw, who, id, target, side);
      case Block(name, ip) => BlockIsRefusedIff(env, fw, who, name, ip);
      case Unblock(name) => UnblockIsRefusedIff(fw, name);
      case Resync => ResyncEdits(env, fw);
      case Discover => DiscoveryIsNotRefused(env, fw);
    }
  }

  lemma BlockIsRefusedIff(env: Env, fw: Fw, who: Option<string>, name: string, ip: string)
    ensures BlockClient(env, fw, who, name, ip).result == Rejected
            <==> !HasBlock(fw.table, name) && !env.hubMode && who == Some(ip)
  {
    hide MaxPosition, Apply;
  }

  lemma UnblockIsRefusedIff(fw: Fw, name: string)
    requires BlocksShown(fw)
    ensures UnblockClient(fw, name).result == Rejected
            <==> exists id :: IsBlockOf(fw.table, name, id) && !fw.table[id].enabled
  {
    hide Unapply, BlocksShown;
    var b := BlockRow(fw.table, name);
    if b.Some? && IsBlockOf(fw.table, name, b.value) {
      OneBlockOf(fw, b.value);
      if fw.table[b.value].enabled {
        BlockRemoved(fw, fw.table - {b.value}, b.value);
      } else {
        IdleBlock(fw, b.value);
      }
    }
  }

  lemma DiscoveryIsNotRefused(env: Env, fw: Fw)
    ensures DiscoverAll(env, fw).result != Rejected
  {
    hide Scanned, Rebuilt, Reached, Stops, Visited;
  }

  // ---------- what is live afterwards ----------

  /** In a synced state a chain shows a row's tag exactly if the row is stored, on, and of a kind that targets the
      chain. */
  lemma TagIsShownIff(fw: Fw, id: int, c: Chain)
    requires InSync(fw)
    ensures (exists r :: r in fw.live.At(c) && r.comment == Tracked(id))
            <==> id in fw.table && fw.table[id].enabled && c in ChainsFor(fw.table[id].rule)
  {
    hide Ordered, Printed, PrintAll, Filter;
    assert ChainInSync(fw.table, fw.live, c);
    if r :| r in fw.live.At(c) && r.comment == Tracked(id) {
      assert r in Filter(Owned, fw.live.At(c));
      ShownIsRow(fw.table, c, r);
      OrderedFacts(fw.table, c);
    }
    if id in fw.table && fw.table[id].enabled && c in ChainsFor(fw.table[id].rule) {
      RowIsLive(fw, id, c);
      RowIsShown(fw.table, id, c);
      PrintedTag(fw.table[id], c);
    }
  }

  /** The same of a client's block. */
  lemma BlockIsShownIff(fw: Fw, name: string, c: Chain)
    requires BlocksShown(fw) && c in {FORWARD, INPUT}
    ensures (exists r :: r in fw.live.At(c) && r.comment == TagOf(c, name))
            <==> exists id :: IsBlockOf(fw.table, name, id) && fw.table[id].enabled
  {
    hide Printed;
    assert Shown(fw.table, fw.live, name, c);
    if r :| r in fw.live.At(c) && r.comment == TagOf(c, name) {
      assert HasTag(TagOf(c, name))(r) && r in BlocksOf(fw.live, c, name);
      assert exists id :: Blocking(fw.table, name, id);
    }
    if id :| Blocking(fw.table, name, id) {
      PrintedBlock(fw.table[id], c);
      assert Printed(fw.table[id], c) in BlocksOf(fw.live, c, name);
    }
  }

  /** While every row can be printed no call ends broken, a discovery exactly if it meets a port forward without a
      port. */
  lemma NeverBroken(env: Env, fw: Fw, who: Option<string>, op: Op)
    requires Intact(fw)
    ensures Step(env, fw, who, op).result == Broken <==> op.Discover? && Portless(fw)
  {
    hide AddRule, DisableRule, EnableRule, DeleteRule, ReorderRule, BlockClient, UnblockClient, DiscoverAll, ResyncAll,
      InSync, CompleteTable, Portless;
    match op {
      case Add(r, note) => AddIsNotBroken(env, fw, who, r, note);
      case Toggle(id) => ChangeIsNotBroken(env, fw, who, id);
      case Disable(id) => ChangeIsNotBroken(env, fw, who, id);
      case Delete(id) => ChangeIsNotBroken(env, fw, who, id);
      case Reorder(id, target, side) => ReorderIsNotBroken(env, fw, who, id, target, side);
      case Block(name, ip) => BlockIsNotBroken(env, fw, who, name, ip);
      case Unblock(name) => BlockIsNotBroken(env, fw, who, name, "");
      case Resync => ResyncIsNotBroken(env, fw);
      case Discover => DiscoveryIsBrokenIff(env, fw);
    }
  }

  lemma AddIsNotBroken(env: Env, fw: Fw, who: Option<string>, r: Rule, note: string)
    ensures AddRule(env, fw, who, r, note).result != Broken
  {
    hide LocksOut, MaxPosition, Apply;
  }

  lemma ChangeIsNotBroken(env: Env, fw: Fw, who: Option<string>, id: int)
    requires Intact(fw)
    ensures DisableRule(env, fw, who, id).result != Broken && DeleteRule(env, fw, who, id).result != Broken
    ensures id in fw.table ==> EnableRule(env, fw, who, id).result != Broken
  {
    hide LocksOut, Apply, Unapply, Rebuilt, Reached, Stops, UnrestrictedDrop, ChainInSync;
    if id in fw.table {
      var t' := Switched(fw.table, id, true);
      CompleteReaches(t', Halves(fw.table[id].rule));
      CompleteUnapplies(fw.live, fw.table[id]);
    }
  }

  lemma CompleteUnapplies(live: LiveChains, row: Row)
    requires Complete(row.rule)
    ensures !UnapplyBreaks(live, row)
  {
  }

  lemma ReorderIsNotBroken(env: Env, fw: Fw, who: Option<string>, id: int, target: int, side: Side)
    requires Intact(fw)
    ensures ReorderRule(env, fw, who, id, target, side).result != Broken
  {
    hide LocksOut, Rebuilt, Reached, Stops, DropPosition, SimulatedMove, ChainInSync, Visited;
    if CanReorder(fw.table, id, target) {
      var t' := fw.table[id := fw.table[id].(position := DropPosition(fw.table, id, target, side))];
      CompleteReaches(t', Visited(env, ChainsFor(fw.table[id].rule)));
    }
  }

  lemma BlockIsNotBroken(env: Env, fw: Fw, who: Option<string>, name: string, ip: string)
    ensures BlockClient(env, fw, who, name, ip).result != Broken && UnblockClient(fw, name).result != Broken
  {
    hide MaxPosition, Apply, Unapply, BlockRow;
  }

  lemma ResyncIsNotBroken(env: Env, fw: Fw)
    requires Intact(fw)
    ensures ResyncAll(env, fw).result != Broken
  {
    hide ReapplyBlocks, Rebuilt, Sorted, Stops, Visited, ChainInSync, ResyncReaches;
    CompleteReaches(fw.table, Visited(env, UsedChains(fw.table)));
  }

  lemma DiscoveryIsBrokenIff(env: Env, fw: Fw)
    requires Intact(fw)
    ensures DiscoverAll(env, fw).result == Broken <==> Portless(fw)
  {
    hide Scanned, Rebuilt, Reached, Stops, Candidate, CompleteTable, ChainInSync;
    var (mid, touched) := Scanned(fw, 4);
    ScannedComplete(fw, 4);
    if Portless(fw) {
      var id := PortlessRow(fw);
      StuckAt(mid.table, id, PREROUTING);
      var r :| r in fw.live.At(PREROUTING) && PortlessCandidate(fw.table, r);
      assert Adoptable(fw, PREROUTING);
      TouchedIffAdoptable(fw, 2);
      StopsAt(mid.table, Visited(env, touched), PREROUTING);
    } else {
      CompleteReaches(mid.table, Visited(env, touched));
    }
  }

  lemma StopsAt(t: Table, order: seq<Chain>, c: Chain)
    requires c in order && Stuck(t, c)
    ensures Stops(t, order)
  {
  }

  // ---------- refused calls ----------

  /** A refused call changes nothing; neither does removing a row that is not there or, by disabling, one that is off.
      */
  lemma RefusedChangesNothing(env: Env, fw: Fw, who: Option<string>, id: int)
    ensures var reply := Step(env, fw, who, Op.Toggle(id)); reply.result == Rejected ==> reply.fw == fw
    ensures var reply := Step(env, fw, who, Op.Disable(id));
            reply.result == Rejected || id !in fw.table || !fw.table[id].enabled ==> reply.fw == fw
    ensures var reply := Step(env, fw, who, Op.Delete(id));
            reply.result == Rejected || id !in fw.table ==> reply.fw == fw
  {
    hide LocksOut, Apply, Unapply, Rebuilt, Reached, Stops, UnrestrictedDrop;
  }

  // ---------- the calls ----------

  /** The chain has gained a last rule under the given tag that does what the rule asks for; other chains are as they
      were. */
  ghost predicate Gains(env: Env, before: LiveChains, after: LiveChains, c: Chain, r: Rule, id: int) {
    if c !in ChainsFor(r) then after.At(c) == before.At(c)
    else exists x :: after.At(c) == before.At(c) + [x] && x.comment == Tracked(id) && x.target == Sent(r, c)
                     && forall p :: Matches(env, x, p) <==> Asked(env, r, c, p)
  }

  /** One behind the last of these rows, or behind zero if there is none. */
  ghost predicate OneBehind(t: Table, position: real) {
    && (forall j :: j in t ==> t[j].position + 1.0 <= position)
    && ((exists j :: j in t && t[j].position + 1.0 == position) || ((forall j :: j !in t) && position == 1.0))
  }

  lemma NewIsOneBehind(t: Table)
    ensures OneBehind(t, MaxPosition(AllRows(t)) + 1.0)
  {
    MaxPositionBounds(AllRows(t));
    if id :| id in t {
      assert t[id] in AllRows(t);
      var m := TopmostExists(AllRows(t));
    } else {
      assert AllRows(t) == {};
    }
  }

  /** An add that is not refused stores exactly one row more, on and behind all others, under an id never used before;
      and last in each of its chains, under the row's tag, comes a rule that does what was asked for. */
  lemma AddDoes(env: Env, fw: Fw, who: Option<string>, r: Rule, note: string)
    requires WellKept(fw)
    ensures var reply := Step(env, fw, who, Op.Add(r, note));
            if reply.result == Rejected then reply.fw == fw
            else
              var t' := reply.fw.table;
              && fw.nextId !in fw.table && fw.nextId in t' && OthersSame(fw.table, t', fw.nextId)
              && t'[fw.nextId].id == fw.nextId && t'[fw.nextId].rule == r && t'[fw.nextId].note == note
              && t'[fw.nextId].enabled && OneBehind(fw.table, t'[fw.nextId].position)
              && forall c :: Gains(env, fw.live, reply.fw.live, c, r, fw.nextId)
  {
    hide LocksOut, MaxPosition, Apply, UnrestrictedDrop, Gains, OneBehind;
    NewIsOneBehind(fw.table);
    var row := NewRow(fw, r, note);
    if Step(env, fw, who, Op.Add(r, note)).result != Rejected {
      forall c { ApplyGains(env, fw.live, row, c); }
    }
  }

  lemma ApplyGains(env: Env, live: LiveChains, row: Row, c: Chain)
    requires !row.rule.ClientBlock?
    ensures Gains(env, live, Apply(live, row), c, row.rule, row.id)
  {
    hide Apply, Printed, Matches, Asked, Sent;
    ApplyEffect(live, row, c);
    assert live.At(c) + [] == live.At(c);
    PrintedTag(row, c);
    PrintedTarget(row, c);
    forall p: Packet
      ensures Matches(env, Printed(row, c), p) <==> Asked(env, row.rule, c, p)
    {
      PrintedDoes(env, row, c, p);
    }
  }

  /** A toggle that is not refused turns the row's flag and nothing else, and what is live follows it: the row's tag is
      shown in its chains, or a client's block in FORWARD and INPUT, exactly if it is now on. */
  lemma ToggleDoes(env: Env, fw: Fw, who: Option<string>, id: int)
    requires WellKept(fw)
    ensures var reply := Step(env, fw, who, Op.Toggle(id));
            if reply.result == Rejected then reply.fw == fw
            else
              && id in fw.table && id in reply.fw.table && OthersSame(fw.table, reply.fw.table, id)
              && reply.fw.table[id] == fw.table[id].(enabled := !fw.table[id].enabled)
    ensures Step(env, fw, who, Op.Toggle(id)).result != Rejected ==>
              FollowsRow(fw, Step(env, fw, who, Op.Toggle(id)).fw, fw.table[id], !fw.table[id].enabled)
  {
    hide Step, FollowsRow;
    RefusedChangesNothing(env, fw, who, id);
    var e := EditOf(env, fw, who, Op.Toggle(id));
    if Step(env, fw, who, Op.Toggle(id)).result != Rejected {
      Follows(env, fw, who, Op.Toggle(id), id, !fw.table[id].enabled);
    }
  }

  /** Disabling switches a stored row off and changes nothing else. */
  lemma DisableDoes(env: Env, fw: Fw, who: Option<string>, id: int)
    requires WellKept(fw)
    ensures var reply := Step(env, fw, who, Op.Disable(id));
            if reply.result == Rejected || id !in fw.table || !fw.table[id].enabled then reply.fw == fw
            else
              && id in reply.fw.table && OthersSame(fw.table, reply.fw.table, id)
              && reply.fw.table[id] == fw.table[id].(enabled := false)
              && FollowsRow(fw, reply.fw, fw.table[id], false)
  {
    hide Step, FollowsRow;
    RefusedChangesNothing(env, fw, who, id);
    var e := EditOf(env, fw, who, Op.Disable(id));
    if e != Same { Follows(env, fw, who, Op.Disable(id), id, false); }
  }

  /** Deleting drops a stored row, on or off, and changes nothing else. */
  lemma DeleteDoes(env: Env, fw: Fw, who: Option<string>, id: int)
    requires WellKept(fw)
    ensures var reply := Step(env, fw, who, Op.Delete(id));
            if reply.result == Rejected || id !in fw.table then reply.fw == fw
            else
              && id !in reply.fw.table && OthersSame(fw.table, reply.fw.table, id)
              && FollowsRow(fw, reply.fw, fw.table[id], false)
  {
    hide Step, FollowsRow;
    RefusedChangesNothing(env, fw, who, id);
    var e := EditOf(env, fw, who, Op.Delete(id));
    if e != Same { Follows(env, fw, who, Op.Delete(id), id, false); }
  }

  /** From an intact state with blocks shown, the live chains show the row exactly if it is to be on. */
  ghost predicate FollowsRow(fw: Fw, after: Fw, row: Row, on: bool) {
    && (Intact(fw) ==> forall c ::
          (exists r :: r in after.live.At(c) && r.comment == Tracked(row.id)) <==> on && c in ChainsFor(row.rule))
    && (BlocksShown(fw) && row.rule.ClientBlock? ==> forall c :: c in {FORWARD, INPUT} ==>
          ((exists r :: r in after.live.At(c) && r.comment == TagOf(c, row.rule.clientName)) <==> on))
  }

  lemma Follows(env: Env, fw: Fw, who: Option<string>, op: Op, id: int, on: bool)
    requires WellKept(fw) && id in fw.table && !op.Discover?
    requires var t' := Step(env, fw, who, op).fw.table;
             if on then id in t' && t'[id] == fw.table[id].(enabled := true) else id in t' ==> !t'[id].enabled
    requires OthersSame(fw.table, Step(env, fw, who, op).fw.table, id)
    ensures FollowsRow(fw, Step(env, fw, who, op).fw, fw.table[id], on)
  {
    hide Step, CompleteTable, InSync, BlocksShown;
    var after := Step(env, fw, who, op).fw;
    var row := fw.table[id];
    if Intact(fw) {
      StepKeepsMirror(env, fw, who, op);
      forall c { TagIsShownIff(after, row.id, c); }
    }
    if BlocksShown(fw) && row.rule.ClientBlock? {
      StepKeepsBlocks(env, fw, who, op);
      OneBlockOf(fw, id);
      var name := row.rule.clientName;
      forall j
        ensures j in after.table && after.table[j].enabled && IsBlockOf(after.table, name, j) <==> on && j == id
      {
        assert IsBlockOf(fw.table, name, j) ==> j == id;
      }
      forall c | c in {FORWARD, INPUT}
        ensures (exists r :: r in after.live.At(c) && r.comment == TagOf(c, name)) <==> on
      {
        BlockIsShownIff(after, name, c);
      }
    }
  }

  lemma OneBlockOf(fw: Fw, id: int)
    requires BlocksShown(fw) && id in fw.table && fw.table[id].rule.ClientBlock?
    ensures forall j :: IsBlockOf(fw.table, fw.table[id].rule.clientName, j) ==> j == id
  {
    assert IsBlockOf(fw.table, fw.table[id].rule.clientName, id);
  }

  /** FORWARD and INPUT have gained a first rule under the client's tag that drops exactly what comes from the address;
      the other chains are as they were. */
  ghost predicate Blocks(env: Env, before: LiveChains, after: LiveChains, c: Chain, name: string, ip: string) {
    if c !in {FORWARD, INPUT} then after.At(c) == before.At(c)
    else exists x :: after.At(c) == [x] + before.At(c) && x.comment == TagOf(c, name) && x.target == Target.Jump(DROP)
                     && forall p :: Matches(env, x, p) <==> env.contains(ip, p.src)
  }

  /** A block that is neither refused nor there already stores one row more and puts its two rules in front. */
  lemma BlockDoes(env: Env, fw: Fw, who: Option<string>, name: string, ip: string)
    requires WellKept(fw)
    ensures var reply := Step(env, fw, who, Op.Block(name, ip));
            if reply.result == Rejected || HasBlock(fw.table, name) then reply.fw == fw
            else
              var t' := reply.fw.table;
              && fw.nextId !in fw.table && fw.nextId in t' && OthersSame(fw.table, t', fw.nextId)
              && t'[fw.nextId].id == fw.nextId && t'[fw.nextId].rule == ClientBlock(name, ip)
              && t'[fw.nextId].note == "Block " + name && t'[fw.nextId].enabled
              && OneBehind(fw.table, t'[fw.nextId].position)
              && forall c :: Blocks(env, fw.live, reply.fw.live, c, name, ip)
  {
    hide MaxPosition, Apply, BlockRow, Blocks, OneBehind;
    HasBlockIff(fw.table, name);
    NewIsOneBehind(fw.table);
    var row := Row(fw.nextId, ClientBlock(name, ip), "Block " + name, true, MaxPosition(AllRows(fw.table)) + 1.0);
    forall c { ApplyBlocks(env, fw.live, row, c); }
  }

  lemma ApplyBlocks(env: Env, live: LiveChains, row: Row, c: Chain)
    requires row.rule.ClientBlock?
    ensures Blocks(env, live, Apply(live, row), c, row.rule.clientName, row.rule.clientIp)
  {
    hide Apply, Printed, Matches;
    ApplyBlockEffect(live, row, c);
    assert [] + live.At(c) == live.At(c);
    PrintedBlock(row, c);
    PrintedTarget(row, c);
    forall p: Packet
      ensures Matches(env, Printed(row, c), p) <==> env.contains(row.rule.clientIp, p.src)
    {
      PrintedDoes(env, row, c, p);
    }
  }

  lemma HasBlockIff(t: Table, name: string)
    ensures HasBlock(t, name) <==> BlockRow(t, name).Some?
  {
  }

  lemma PrintedTarget(row: Row, c: Chain)
    ensures Printed(row, c).target == Sent(row.rule, c)
  {
  }

  /** Unblocking a client whose block is on drops the row and both rules; one that has no block row is left alone. */
  lemma UnblockDoes(env: Env, fw: Fw, who: Option<string>, name: string)
    requires BlocksShown(fw)
    ensures var reply := Step(env, fw, who, Op.Unblock(name));
            if reply.result == Rejected || !HasBlock(fw.table, name) then reply.fw == fw
            else
              && !HasBlock(reply.fw.table, name)
              && (exists id :: IsBlockOf(fw.table, name, id) && OthersSame(fw.table, reply.fw.table, id))
              && (forall c, r :: c in {FORWARD, INPUT} && r in reply.fw.live.At(c) ==> r.comment != TagOf(c, name))
  {
    hide Unapply, BlocksShown, OthersSame;
    var b := BlockRow(fw.table, name);
    if b.Some? && IsBlockOf(fw.table, name, b.value) {
      OneBlockOf(fw, b.value);
      if fw.table[b.value].enabled {
        BlockRemoved(fw, fw.table - {b.value}, b.value);
        var after := UnblockClient(fw, name).fw;
        forall id
          ensures !IsBlockOf(after.table, name, id)
        {
          assert IsBlockOf(fw.table, name, id) ==> id == b.value;
        }
        assert OthersSame(fw.table, after.table, b.value) by { DroppedOne(fw.table, b.value); }
        forall c | c in {FORWARD, INPUT} { BlockIsShownIff(after, name, c); }
      } else {
        IdleBlock(fw, b.value);
        assert fw.(live := fw.live) == fw;
      }
    }
  }

  lemma DroppedOne(t: Table, id: int)
    ensures OthersSame(t, t - {id}, id)
  {
  }

  // ---------- a resync after a flush ----------

  /** The table as if the blocks among these rows were off. */
  function Dimmed(t: Table, rows: seq<Row>): Table {
    map id | id in t :: if t[id] in rows && t[id].rule.ClientBlock? then t[id].(enabled := false) else t[id]
  }

  /** Applying the rows one after the other makes their blocks live. */
  lemma {:induction false} BlocksReturn(t: Table, nextId: int, live: LiveChains, rows: seq<Row>)
    requires BlocksShown(Fw(Dimmed(t, rows), nextId, live)) && Keyed(t)
    requires Distinct(rows) && forall r :: r in rows ==> r.id in t && t[r.id] == r && r.enabled
    ensures BlocksShown(Fw(t, nextId, ReapplyBlocks(live, rows)))
    decreases |rows|
  {
    hide BlocksShown, Apply, Unapply;
    if rows == [] {
      assert Dimmed(t, []) == t;
    } else {
      var row, rest := rows[0], rows[1..];
      assert row !in rest && rows == [row] + rest;
      if row.rule.ClientBlock? {
        BlockReturns(t, nextId, live, row, rest);
        BlocksReturn(t, nextId, Apply(Unapply(live, row).0, row), rest);
      } else {
        assert Dimmed(t, rows) == Dimmed(t, rest);
        BlocksReturn(t, nextId, live, rest);
      }
    }
  }

  lemma BlockReturns(t: Table, nextId: int, live: LiveChains, row: Row, rest: seq<Row>)
    requires BlocksShown(Fw(Dimmed(t, [row] + rest), nextId, live)) && Keyed(t)
    requires row.id in t && t[row.id] == row && row.rule.ClientBlock? && row.enabled && row !in rest
    ensures BlocksShown(Fw(Dimmed(t, rest), nextId, Apply(Unapply(live, row).0, row)))
  {
    hide BlocksShown, Apply, Unapply, Printed;
    var dim := Dimmed(t, [row] + rest);
    var off := row.(enabled := false);
    assert dim[row.id] == off;
    IdleBlock(Fw(dim, nextId, live), row.id);
    SameUnapply(live, row, off);
    BlockRowsKnown(Fw(dim, nextId, live), row.id);
    BlockAdded(Fw(dim, nextId, live), row, nextId);
    forall id | id in t
      ensures dim[row.id := row][id] == Dimmed(t, rest)[id]
    {
      assert t[id].id == id && (t[id] in [row] + rest <==> t[id] == row || t[id] in rest);
    }
    assert dim[row.id := row] == Dimmed(t, rest);
  }

  lemma SameUnapply(live: LiveChains, a: Row, b: Row)
    requires a.rule == b.rule && a.rule.ClientBlock?
    ensures Unapply(live, a) == Unapply(live, b)
  {
    assert forall c :: Printed(a, c) == Printed(b, c);
  }

  /** After the chains have been flushed, or at a restart, a resync makes the block of every client live whose block row
      is on, once in FORWARD and once in INPUT. */
  lemma ResyncRestoresBlocks(env: Env, fw: Fw)
    requires WellKept(fw) && OneBlockEach(fw.table)
    requires forall name, c :: c in {FORWARD, INPUT} ==> BlocksOf(fw.live, c, name) == []
    ensures BlocksShown(Step(env, fw, None, Op.Resync).fw) && Step(env, fw, None, Op.Resync).fw.table == fw.table
  {
    hide BlocksShown, ReapplyBlocks, ResyncReaches, Rebuilt, Stops, BlocksOf, Visited;
    var rows := Sorted(EnabledRows(fw.table));
    EnabledListed(fw.table);
    NoneShown(fw, rows);
    BlocksReturn(fw.table, fw.nextId, fw.live, rows);
    var mid := fw.(live := ReapplyBlocks(fw.live, rows));
    RebuiltApart(fw.table, mid.live, ResyncReaches(env, fw.table));
    Unaffected(mid, ResyncAll(env, fw).fw);
  }

  lemma EnabledListed(t: Table)
    requires Keyed(t)
    ensures var rows := Sorted(EnabledRows(t));
            Distinct(rows) && forall r :: r in rows <==> r.id in t && t[r.id] == r && r.enabled
  {
    SortedIsAscending(EnabledRows(t));
    var rows := Sorted(EnabledRows(t));
    forall r
      ensures r in rows <==> r.id in t && t[r.id] == r && r.enabled
    {
      assert r in rows <==> r in Elements(rows);
    }
  }

  lemma NoneShown(fw: Fw, rows: seq<Row>)
    requires WellKept(fw) && OneBlockEach(fw.table)
    requires forall r :: r in rows <==> r.id in fw.table && fw.table[r.id] == r && r.enabled
    requires forall name, c :: c in {FORWARD, INPUT} ==> BlocksOf(fw.live, c, name) == []
    ensures BlocksShown(Fw(Dimmed(fw.table, rows), fw.nextId, fw.live))
  {
    hide BlocksOf;
    var t := Dimmed(fw.table, rows);
    FewerBlocks(fw.table, t);
    forall name, id
      ensures !Blocking(t, name, id)
    {
    }
  }
}
