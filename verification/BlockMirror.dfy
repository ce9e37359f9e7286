/** Over every sequential run, a client's block rules are live once in each of FORWARD and INPUT exactly while its block
    row is switched on. */
module BlockMirror {
  import opened Wrappers
  import opened Sequences
  import opened Rules
  import opened Lockout
  import opened Discovery
  import opened Firewall
  import opened Mirror
  import opened BlockRules

  predicate Blocking(t: Table, name: string, id: int) {
    IsBlockOf(t, name, id) && t[id].enabled
  }

  ghost predicate Shown(t: Table, live: LiveChains, name: string, c: Chain) {
    && (forall id :: Blocking(t, name, id) ==> BlocksOf(live, c, name) == [Printed(t[id], c)])
    && ((forall id :: !Blocking(t, name, id)) ==> BlocksOf(live, c, name) == [])
  }

  ghost predicate BlocksShown(fw: Fw) {
    && WellKept(fw) && OneBlockEach(fw.table)
    && forall name, c :: c in {FORWARD, INPUT} ==> Shown(fw.table, fw.live, name, c)
  }

  // ---------- what leaves blocks alone ----------

  ghost predicate SameBlockRows(t: Table, t': Table) {
    && (forall id :: id in t && t[id].rule.ClientBlock? ==> id in t' && t'[id] == t[id])
    && (forall id :: id in t' && t'[id].rule.ClientBlock? ==> id in t && t'[id] == t[id])
  }

  ghost predicate SameBlockRules(live: LiveChains, live': LiveChains) {
    forall name, c :: BlocksOf(live', c, name) == BlocksOf(live, c, name)
  }

  lemma Unaffected(fw: Fw, fw': Fw)
    requires BlocksShown(fw) && WellKept(fw')
    requires SameBlockRows(fw.table, fw'.table) && SameBlockRules(fw.live, fw'.live)
    ensures BlocksShown(fw')
  {
    hide BlocksOf, Printed;
    var t, t' := fw.table, fw'.table;
    forall name, id
      ensures IsBlockOf(t', name, id) <==> IsBlockOf(t, name, id)
      ensures IsBlockOf(t, name, id) ==> t'[id] == t[id]
    {
    }
    forall name, c | c in {FORWARD, INPUT}
      ensures Shown(t', fw'.live, name, c)
    {
      assert Shown(t, fw.live, name, c);
      assert forall id :: Blocking(t', name, id) <==> Blocking(t, name, id);
    }
  }

  lemma TaggedIsNoBlock(row: Row, c: Chain, d: Chain, name: string)
    requires !row.rule.ClientBlock?
    ensures !HasTag(TagOf(d, name))(Printed(row, c))
  {
  }

  lemma AppliedApart(live: LiveChains, row: Row)
    requires !row.rule.ClientBlock?
    ensures SameBlockRules(live, Apply(live, row))
  {
    hide Apply;
    forall name, c
      ensures BlocksOf(Apply(live, row), c, name) == BlocksOf(live, c, name)
    {
      var tail := if c in ChainsFor(row.rule) then [Printed(row, c)] else [];
      ApplyEffect(live, row, c);
      TaggedIsNoBlock(row, c, c, name);
      FilterConcat(HasTag(TagOf(c, name)), live.At(c), tail);
      FilterNone(HasTag(TagOf(c, name)), tail);
    }
  }

  lemma UnappliedApart(live: LiveChains, row: Row)
    requires !row.rule.ClientBlock?
    ensures SameBlockRules(live, Unapply(live, row).0)
  {
    hide Unapply;
    forall name, c
      ensures BlocksOf(Unapply(live, row).0, c, name) == BlocksOf(live, c, name)
    {
      UnapplyIs(live, row, c);
      TaggedIsNoBlock(row, c, c, name);
      FilterWithoutDropped(HasTag(TagOf(c, name)), live.At(c), Printed(row, c));
    }
  }

  lemma RebuiltApart(t: Table, live: LiveChains, cs: set<Chain>)
    requires Keyed(t)
    ensures SameBlockRules(live, Rebuilt(t, live, cs))
  {
    hide Rebuilt, Filter, PrintAll, Ordered, PrintableFront;
    forall name, c
      ensures BlocksOf(Rebuilt(t, live, cs), c, name) == BlocksOf(live, c, name)
    {
      if c in cs {
        var keep := HasTag(TagOf(c, name));
        var kept, printed := Filter(NotOwned, live.At(c)), PrintAll(PrintableFront(Ordered(t, c), c), c);
        PrintAllOwned(t, c);
        PrintsFront(Ordered(t, c), PrintableFront(Ordered(t, c), c), c);
        FilterConcat(keep, kept, printed);
        FilterNone(keep, printed);
        FilterTwice(keep, NotOwned, keep, live.At(c));
      }
    }
  }

  lemma SameBlockRulesTwice(a: LiveChains, b: LiveChains, c: LiveChains)
    requires SameBlockRules(a, b) && SameBlockRules(b, c)
    ensures SameBlockRules(a, c)
  {
    hide BlocksOf;
  }

  // ---------- switching one block on or off ----------

  lemma BlockAdded(fw: Fw, row: Row, nextId: int)
    requires BlocksShown(fw) && row.rule.ClientBlock? && row.enabled
    requires forall id :: IsBlockOf(fw.table, row.rule.clientName, id) ==> id == row.id && !fw.table[id].enabled
    requires row.id in fw.table ==> IsBlockOf(fw.table, row.rule.clientName, row.id)
    requires fw.nextId <= nextId && row.id < nextId
    ensures BlocksShown(Fw(fw.table[row.id := row], nextId, Apply(fw.live, row)))
  {
    hide BlocksOf, Printed, Apply;
    var t, t' := fw.table, fw.table[row.id := row];
    forall name, id
      ensures IsBlockOf(t', name, id)
              <==> (IsBlockOf(t, name, id) && id != row.id) || (name == row.rule.clientName && id == row.id)
    {
    }
    forall name, c | c in {FORWARD, INPUT}
      ensures Shown(t', Apply(fw.live, row), name, c)
    {
      assert Shown(t, fw.live, name, c);
      ApplyAdds(fw.live, row, name, c);
      if name == row.rule.clientName {
        assert Blocking(t', name, row.id) && forall id :: !Blocking(t, name, id);
        assert [Printed(row, c)] + [] == [Printed(row, c)];
      } else {
        assert forall id :: Blocking(t', name, id) <==> Blocking(t, name, id);
      }
    }
  }

  lemma BlockRemoved(fw: Fw, t': Table, id: int)
    requires BlocksShown(fw) && id in fw.table && fw.table[id].rule.ClientBlock? && fw.table[id].enabled
    requires t' == fw.table - {id} || t' == fw.table[id := fw.table[id].(enabled := false)]
    ensures Unapply(fw.live, fw.table[id]).1
    ensures BlocksShown(Fw(t', fw.nextId, Unapply(fw.live, fw.table[id]).0))
  {
    hide BlocksOf, Printed, Unapply;
    var t, row := fw.table, fw.table[id];
    var mine := row.rule.clientName;
    assert Blocking(t, mine, id);
    assert Shown(t, fw.live, mine, FORWARD) && Shown(t, fw.live, mine, INPUT);
    forall name, c | c in {FORWARD, INPUT}
      ensures Shown(t', Unapply(fw.live, row).0, name, c)
    {
      assert Shown(t, fw.live, name, c);
      UnapplyTakes(fw.live, row, name, c);
      forall i
        ensures Blocking(t', name, i) <==> Blocking(t, name, i) && name != mine
        ensures Blocking(t', name, i) ==> t'[i] == t[i]
      {
        assert IsBlockOf(t, mine, i) ==> i == id;
      }
    }
    UnapplyTakes(fw.live, row, mine, FORWARD);
    FewerBlocks(t, t');
  }

  lemma FewerBlocks(t: Table, t': Table)
    requires OneBlockEach(t) && forall id :: id in t' ==> id in t && t'[id].rule == t[id].rule
    ensures OneBlockEach(t')
  {
    forall name, id | IsBlockOf(t', name, id)
      ensures IsBlockOf(t, name, id)
    {
    }
  }

  /** A block row that is off can go without a command, and its commands fail without a trace. */
  lemma IdleBlock(fw: Fw, id: int)
    requires BlocksShown(fw) && id in fw.table && fw.table[id].rule.ClientBlock? && !fw.table[id].enabled
    ensures Unapply(fw.live, fw.table[id]) == (fw.live, false)
    ensures BlocksShown(Fw(fw.table - {id}, fw.nextId, fw.live))
  {
    hide BlocksOf, Printed, Unapply;
    var t, row := fw.table, fw.table[id];
    var mine := row.rule.clientName;
    assert IsBlockOf(t, mine, id);
    forall i
      ensures !Blocking(t, mine, i)
    {
      assert IsBlockOf(t, mine, i) ==> i == id;
    }
    assert Shown(t, fw.live, mine, FORWARD);
    UnapplyFails(fw.live, row);
    FewerBlocks(t, t - {id});
    forall name, c | c in {FORWARD, INPUT}
      ensures Shown(t - {id}, fw.live, name, c)
    {
      assert Shown(t, fw.live, name, c);
      assert forall i :: Blocking(t - {id}, name, i) <==> Blocking(t, name, i);
    }
  }

  /** Taking a live block out and putting it back in front. */
  lemma BlockReapplied(fw: Fw, id: int)
    requires BlocksShown(fw) && id in fw.table && fw.table[id].rule.ClientBlock? && fw.table[id].enabled
    ensures BlocksShown(fw.(live := Apply(Unapply(fw.live, fw.table[id]).0, fw.table[id])))
  {
    hide BlocksShown, Apply, Unapply, Printed;
    var t, row := fw.table, fw.table[id];
    var off := t[id := row.(enabled := false)];
    BlockRemoved(fw, off, id);
    BlockRowsKnown(fw, id);
    assert forall i :: IsBlockOf(off, row.rule.clientName, i) ==> IsBlockOf(t, row.rule.clientName, i);
    BlockAdded(Fw(off, fw.nextId, Unapply(fw.live, row).0), row, fw.nextId);
    assert off[id := row] == t;
  }

  lemma BlockRowsKnown(fw: Fw, id: int)
    requires BlocksShown(fw) && id in fw.table && fw.table[id].rule.ClientBlock?
    ensures id < fw.nextId && fw.table[id].id == id
    ensures forall i :: IsBlockOf(fw.table, fw.table[id].rule.clientName, i) ==> i == id
  {
    assert IsBlockOf(fw.table, fw.table[id].rule.clientName, id);
  }

  lemma {:induction false} BlocksReapplied(fw: Fw, rows: seq<Row>)
    requires BlocksShown(fw) && forall r :: r in rows ==> r.id in fw.table && fw.table[r.id] == r && r.enabled
    ensures BlocksShown(fw.(live := ReapplyBlocks(fw.live, rows)))
    decreases |rows|
  {
    hide BlocksShown, Apply, Unapply;
    if rows == [] {
      assert fw.(live := fw.live) == fw;
    } else if rows[0].rule.ClientBlock? {
      BlockReapplied(fw, rows[0].id);
      BlocksReapplied(fw.(live := Apply(Unapply(fw.live, rows[0]).0, rows[0])), rows[1..]);
    } else {
      BlocksReapplied(fw, rows[1..]);
    }
  }

  // ---------- every operation ----------

  lemma AddKeepsBlocks(env: Env, fw: Fw, who: Option<string>, r: Rule, note: string)
    requires BlocksShown(fw)
    ensures BlocksShown(AddRule(env, fw, who, r, note).fw)
  {
    hide BlocksShown, MaxPosition, LocksOut, Apply, UnrestrictedDrop;
    var after := AddRule(env, fw, who, r, note).fw;
    if after != fw {
      ShownIsKept(fw);
      AppliedApart(fw.live, after.table[fw.nextId]);
      Unaffected(fw, after);
    }
  }

  lemma ShownIsKept(fw: Fw)
    requires BlocksShown(fw)
    ensures WellKept(fw) && fw.nextId !in fw.table
  {
  }

  lemma EnableKeepsBlocks(env: Env, fw: Fw, who: Option<string>, id: int)
    requires BlocksShown(fw) && id in fw.table && !fw.table[id].enabled
    ensures BlocksShown(EnableRule(env, fw, who, id).fw)
  {
    hide BlocksShown, LocksOut, Apply, UnrestrictedDrop, Rebuilt, Reached, Stops;
    var after := EnableRule(env, fw, who, id).fw;
    ShownIsKept(fw);
    if after != fw {
      if fw.table[id].rule.ClientBlock? {
        BlockRowsKnown(fw, id);
        BlockAdded(fw, after.table[id], fw.nextId);
      } else {
        RebuiltApart(after.table, fw.live, Reached(after.table, Halves(fw.table[id].rule)));
        Unaffected(fw, after);
      }
    }
  }

  lemma DisableKeepsBlocks(env: Env, fw: Fw, who: Option<string>, id: int)
    requires BlocksShown(fw)
    ensures BlocksShown(DisableRule(env, fw, who, id).fw)
  {
    hide BlocksShown, LocksOut, Unapply;
    var after := DisableRule(env, fw, who, id).fw;
    ShownIsKept(fw);
    if after != fw {
      if fw.table[id].rule.ClientBlock? {
        BlockRemoved(fw, after.table, id);
      } else {
        UnappliedApart(fw.live, fw.table[id]);
        Unaffected(fw, after);
      }
    }
  }

  lemma DeleteKeepsBlocks(env: Env, fw: Fw, who: Option<string>, id: int)
    requires BlocksShown(fw)
    ensures BlocksShown(DeleteRule(env, fw, who, id).fw)
  {
    hide BlocksShown, LocksOut, Unapply;
    var after := DeleteRule(env, fw, who, id).fw;
    ShownIsKept(fw);
    if after != fw {
      if fw.table[id].rule.ClientBlock? {
        if fw.table[id].enabled { BlockRemoved(fw, after.table, id); } else { IdleBlock(fw, id); }
      } else {
        UnappliedApart(fw.live, fw.table[id]);
        NothingDone(fw.live);
        Unaffected(fw, after);
      }
    }
  }

  lemma NothingDone(live: LiveChains)
    ensures SameBlockRules(live, live)
  {
  }

  lemma ReorderKeepsBlocks(env: Env, fw: Fw, who: Option<string>, id: int, target: int, side: Side)
    requires BlocksShown(fw)
    ensures BlocksShown(ReorderRule(env, fw, who, id, target, side).fw)
  {
    hide BlocksShown, LocksOut, DropPosition, SimulatedMove, Rebuilt, Reached, Stops, Visited;
    var after := ReorderRule(env, fw, who, id, target, side).fw;
    ShownIsKept(fw);
    if after != fw {
      RebuiltApart(after.table, fw.live, Reached(after.table, Visited(env, ChainsFor(fw.table[id].rule))));
      Unaffected(fw, after);
    }
  }

  lemma BlockKeepsBlocks(env: Env, fw: Fw, who: Option<string>, name: string, ip: string)
    requires BlocksShown(fw)
    ensures BlocksShown(BlockClient(env, fw, who, name, ip).fw)
  {
    hide BlocksShown, MaxPosition, Apply;
    var after := BlockClient(env, fw, who, name, ip).fw;
    ShownIsKept(fw);
    if after != fw {
      assert forall id :: !IsBlockOf(fw.table, name, id);
      BlockAdded(fw, after.table[fw.nextId], fw.nextId + 1);
    }
  }

  lemma UnblockKeepsBlocks(fw: Fw, name: string)
    requires BlocksShown(fw)
    ensures BlocksShown(UnblockClient(fw, name).fw)
  {
    hide BlocksShown, Unapply;
    var b := BlockRow(fw.table, name);
    if b.Some? && IsBlockOf(fw.table, name, b.value) {
      if fw.table[b.value].enabled {
        BlockRemoved(fw, fw.table - {b.value}, b.value);
      } else {
        IdleBlock(fw, b.value);
        assert fw.(live := fw.live) == fw;
      }
    }
  }

  lemma ResyncKeepsBlocks(env: Env, fw: Fw)
    requires BlocksShown(fw)
    ensures BlocksShown(ResyncAll(env, fw).fw)
  {
    hide BlocksShown, Sorted, ReapplyBlocks, ResyncReaches, Rebuilt, Stops;
    ShownIsKept(fw);
    var rows := Sorted(EnabledRows(fw.table));
    SortedIsAscending(EnabledRows(fw.table));
    forall r | r in rows
      ensures r.id in fw.table && fw.table[r.id] == r && r.enabled
    {
      assert r in Elements(rows);
    }
    BlocksReapplied(fw, rows);
    var mid := fw.(live := ReapplyBlocks(fw.live, rows));
    RebuiltApart(fw.table, mid.live, ResyncReaches(env, fw.table));
    Unaffected(mid, ResyncAll(env, fw).fw);
  }

  lemma ScansLeaveBlocks(fw: Fw, c: Chain, name: string)
    ensures Filter(HasTag(TagOf(c, name)), Filter(Staying(fw.table, c), fw.live.At(c))) == BlocksOf(fw.live, c, name)
  {
    hide Adopt;
    var keep := HasTag(TagOf(c, name));
    FilterTwice(keep, Staying(fw.table, c), keep, fw.live.At(c));
  }

  lemma DiscoverKeepsBlocks(env: Env, fw: Fw)
    requires BlocksShown(fw)
    ensures BlocksShown(Discovered(env, fw))
  {
    hide BlocksShown, Scanned, Rebuilt, Reached, Stops, Visited, BlocksOf;
    ShownIsKept(fw);
    ScannedNew(fw, 4);
    ScansKeepWell(fw, 4);
    var (mid, touched) := Scanned(fw, 4);
    forall name, c
      ensures BlocksOf(mid.live, c, name) == BlocksOf(fw.live, c, name)
    {
      BlocksAfterScans(fw, c, name);
    }
    assert SameBlockRules(fw.live, mid.live);
    assert SameBlockRows(fw.table, mid.table);
    Unaffected(fw, mid);
    ShownIsKept(mid);
    RebuiltApart(mid.table, mid.live, Reached(mid.table, Visited(env, touched)));
    Unaffected(mid, Discovered(env, fw));
  }

  lemma BlocksAfterScans(fw: Fw, c: Chain, name: string)
    ensures BlocksOf(Scanned(fw, 4).0.live, c, name) == BlocksOf(fw.live, c, name)
  {
    hide Scanned, Staying;
    var k := IndexOf(TARGETS, c);
    ScannedLive(fw, 4, k);
    ScansLeaveBlocks(fw, c, name);
  }

  /** Every call, carried out or refused, keeps blocks and block rules together. */
  lemma StepKeepsBlocks(env: Env, fw: Fw, who: Option<string>, op: Op)
    requires BlocksShown(fw)
    ensures BlocksShown(Step(env, fw, who, op).fw)
  {
    hide BlocksShown, AddRule, DisableRule, EnableRule, DeleteRule, ReorderRule, BlockClient, UnblockClient,
      DiscoverAll, ResyncAll;
    match op {
      case Add(r, note) => AddKeepsBlocks(env, fw, who, r, note);
      case Toggle(id) =>
        if id in fw.table && fw.table[id].enabled { DisableKeepsBlocks(env, fw, who, id); }
        else if id in fw.table { EnableKeepsBlocks(env, fw, who, id); }
      case Disable(id) => DisableKeepsBlocks(env, fw, who, id);
      case Delete(id) => DeleteKeepsBlocks(env, fw, who, id);
      case Reorder(id, target, side) => ReorderKeepsBlocks(env, fw, who, id, target, side);
      case Block(name, ip) => BlockKeepsBlocks(env, fw, who, name, ip);
      case Unblock(name) => UnblockKeepsBlocks(fw, name);
      case Resync => ResyncKeepsBlocks(env, fw);
      case Discover => DiscoverKeepsBlocks(env, fw);
    }
  }

  /** Along every run, whatever happens to the other rules. */
  lemma {:induction false} RunKeepsBlocks(env: Env, fw: Fw, calls: seq<Call>)
    requires BlocksShown(fw)
    ensures BlocksShown(Run(env, fw, calls))
  {
    hide BlocksShown, Step;
    if calls != [] {
      var last := |calls| - 1;
      RunKeepsBlocks(env, fw, calls[..last]);
      StepKeepsBlocks(env, Run(env, fw, calls[..last]), calls[last].who, calls[last].op);
    }
  }
}
