/** Block rules stay in front of FORWARD and INPUT, whatever happens to the rules behind them. */
module BlockFronts {
  import opened Wrappers
  import opened Sequences
  import opened Rules
  import opened Lockout
  import opened Discovery
  import opened Firewall
  import opened Mirror
  import opened BlockMirror

  /** A rule with the tag of a client block of this chain. */
  predicate OwnBlock(c: Chain, r: LiveRule) {
    r.comment.BlockTag? && (if c == INPUT then "-in:" else ":") <= r.comment.rest
  }

  /** Every rule tagged as a block is the chain's own, and none stands behind another rule. */
  ghost predicate BlocksFirst(c: Chain, chain: seq<LiveRule>) {
    && (forall r :: r in chain && r.comment.BlockTag? ==> OwnBlock(c, r))
    && forall i, j :: 0 <= i < j < |chain| && chain[j].comment.BlockTag? ==> chain[i].comment.BlockTag?
  }

  ghost predicate Fronted(live: LiveChains, c: Chain) {
    BlocksFirst(c, live.At(c))
  }

  // ---------- what keeps a front ----------

  lemma AppendKeepsFront(c: Chain, chain: seq<LiveRule>, more: seq<LiveRule>)
    requires BlocksFirst(c, chain) && forall r :: r in more ==> !r.comment.BlockTag?
    ensures BlocksFirst(c, chain + more)
  {
  }

  lemma PutKeepsFront(c: Chain, r: LiveRule, chain: seq<LiveRule>)
    requires BlocksFirst(c, chain) && OwnBlock(c, r)
    ensures BlocksFirst(c, [r] + chain)
  {
  }

  lemma {:induction false} WithoutKeepsFront(c: Chain, chain: seq<LiveRule>, x: LiveRule)
    requires BlocksFirst(c, chain)
    ensures BlocksFirst(c, Without(chain, x))
  {
    if chain != [] && chain[0] != x {
      WithoutKeepsFront(c, chain[1..], x);
      HeadDecides(c, chain, Without(chain[1..], x));
    }
  }

  lemma {:induction false} FilterKeepsFront(c: Chain, keep: LiveRule -> bool, chain: seq<LiveRule>)
    requires BlocksFirst(c, chain)
    ensures BlocksFirst(c, Filter(keep, chain))
  {
    if chain != [] {
      FilterKeepsFront(c, keep, chain[1..]);
      HeadDecides(c, chain, Filter(keep, chain[1..]));
    }
  }

  /** The head of a chain in front of a part of its tail. */
  lemma HeadDecides(c: Chain, chain: seq<LiveRule>, rest: seq<LiveRule>)
    requires BlocksFirst(c, chain) && chain != [] && BlocksFirst(c, rest) && forall r :: r in rest ==> r in chain[1..]
    ensures BlocksFirst(c, [chain[0]] + rest)
  {
    if !chain[0].comment.BlockTag? {
      forall r | r in rest
        ensures !r.comment.BlockTag?
      {
        var k :| 0 <= k < |chain[1..]| && chain[1..][k] == r;
        assert chain[k + 1] == r;
      }
    }
  }

  lemma PrintedTags(row: Row, c: Chain)
    ensures if row.rule.ClientBlock? then OwnBlock(c, Printed(row, c)) else !Printed(row, c).comment.BlockTag?
  {
  }

  // ---------- commands ----------

  lemma ApplyKeepsFront(live: LiveChains, row: Row, c: Chain)
    requires Fronted(live, c)
    ensures Fronted(Apply(live, row), c)
  {
    hide Apply, Printed, BlocksFirst, OwnBlock;
    PrintedTags(row, c);
    if row.rule.ClientBlock? {
      ApplyBlockEffect(live, row, c);
      assert [] + live.At(c) == live.At(c);
      PutKeepsFront(c, Printed(row, c), live.At(c));
    } else {
      ApplyEffect(live, row, c);
      AppendKeepsFront(c, live.At(c), if c in ChainsFor(row.rule) then [Printed(row, c)] else []);
    }
  }

  lemma UnapplyKeepsFront(live: LiveChains, row: Row, c: Chain)
    requires Fronted(live, c)
    ensures Fronted(Unapply(live, row).0, c)
  {
    hide Unapply, Printed, Without, BlocksFirst;
    UnapplyIs(live, row, c);
    WithoutKeepsFront(c, live.At(c), Printed(row, c));
  }

  lemma RebuildKeepsFront(t: Table, live: LiveChains, cs: set<Chain>, c: Chain)
    requires Keyed(t) && Fronted(live, c)
    ensures Fronted(Rebuilt(t, live, cs), c)
  {
    hide Rebuilt, PrintAll, Ordered, PrintableFront, BlocksFirst, Filter;
    if c in cs {
      PrintAllOwned(t, c);
      PrintsFront(Ordered(t, c), PrintableFront(Ordered(t, c), c), c);
      FilterKeepsFront(c, NotOwned, live.At(c));
      AppendKeepsFront(c, Filter(NotOwned, live.At(c)), PrintAll(PrintableFront(Ordered(t, c), c), c));
    }
  }

  lemma {:induction false} ReapplyKeepsFront(live: LiveChains, rows: seq<Row>, c: Chain)
    requires Fronted(live, c)
    ensures Fronted(ReapplyBlocks(live, rows), c)
    decreases |rows|
  {
    hide Fronted, Apply, Unapply;
    if rows != [] {
      if rows[0].rule.ClientBlock? {
        UnapplyKeepsFront(live, rows[0], c);
        ApplyKeepsFront(Unapply(live, rows[0]).0, rows[0], c);
        ReapplyKeepsFront(Apply(Unapply(live, rows[0]).0, rows[0]), rows[1..], c);
      } else {
        ReapplyKeepsFront(live, rows[1..], c);
      }
    }
  }

  // ---------- operations and runs ----------

  /** Switching one row on or off, or deleting it. */
  lemma ChangeKeepsFront(env: Env, fw: Fw, who: Option<string>, id: int, c: Chain)
    requires WellKept(fw) && Fronted(fw.live, c)
    ensures Fronted(ToggleRule(env, fw, who, id).fw.live, c)
    ensures Fronted(DisableRule(env, fw, who, id).fw.live, c)
    ensures Fronted(DeleteRule(env, fw, who, id).fw.live, c)
  {
    hide Fronted, Apply, Unapply, Rebuilt, LocksOut, UnrestrictedDrop, Reached, Stops, AfterUnapply;
    if id in fw.table {
      var on := fw.table[id].(enabled := true);
      var t' := fw.table[id := on];
      UnapplyKeepsFront(fw.live, fw.table[id], c);
      ApplyKeepsFront(fw.live, on, c);
      RebuildKeepsFront(t', fw.live, Reached(t', Halves(on.rule)), c);
    }
  }

  lemma DiscoverKeepsFront(env: Env, fw: Fw, c: Chain)
    requires WellKept(fw) && Fronted(fw.live, c)
    ensures Fronted(Discovered(env, fw).live, c)
  {
    hide Scanned, Rebuilt, Reached, Stops, Visited, BlocksFirst, Staying, Filter;
    ScansKeepWell(fw, 4);
    var (mid, touched) := Scanned(fw, 4);
    DiscoveredLive(fw, c);
    FilterKeepsFront(c, Staying(fw.table, c), fw.live.At(c));
    RebuildKeepsFront(mid.table, mid.live, Reached(mid.table, Visited(env, touched)), c);
  }

  lemma StepKeepsFront(env: Env, fw: Fw, who: Option<string>, op: Op, c: Chain)
    requires WellKept(fw) && Fronted(fw.live, c) && WellKept(Step(env, fw, who, op).fw)
    ensures Fronted(Step(env, fw, who, op).fw.live, c)
  {
    hide Fronted, Apply, Unapply, Rebuilt, ReapplyBlocks, DropPosition, LocksOut, MaxPosition, UnrestrictedDrop,
      DiscoverAll, Reached, Stops, AfterUnapply, ResyncReaches, SimulatedMove, Visited, CanReorder, Sorted;
    var t' := Step(env, fw, who, op).fw.table;
    match op {
      case Add(r, note) => if fw.nextId in t' { ApplyKeepsFront(fw.live, t'[fw.nextId], c); }
      case Toggle(id) => ChangeKeepsFront(env, fw, who, id, c);
      case Disable(id) => ChangeKeepsFront(env, fw, who, id, c);
      case Delete(id) => ChangeKeepsFront(env, fw, who, id, c);
      case Reorder(id, target, side) =>
        if CanReorder(fw.table, id, target) {
          InTable(fw.table, id, target);
          RebuildKeepsFront(t', fw.live, Reached(t', Visited(env, ChainsFor(fw.table[id].rule))), c);
        }
      case Block(name, ip) => if fw.nextId in t' { ApplyKeepsFront(fw.live, t'[fw.nextId], c); }
      case Unblock(name) =>
        var b := BlockRow(fw.table, name);
        if b.Some? && IsBlockOf(fw.table, name, b.value) { UnapplyKeepsFront(fw.live, fw.table[b.value], c); }
      case Resync =>
        ReapplyKeepsFront(fw.live, Sorted(EnabledRows(fw.table)), c);
        RebuildKeepsFront(fw.table, ReapplyBlocks(fw.live, Sorted(EnabledRows(fw.table))),
                           ResyncReaches(env, fw.table), c);
      case Discover => DiscoverKeepsFront(env, fw, c);
    }
  }

  lemma {:induction false} RunKeepsFront(env: Env, fw: Fw, calls: seq<Call>, c: Chain)
    requires BlocksShown(fw) && Fronted(fw.live, c)
    ensures Fronted(Run(env, fw, calls).live, c)
  {
    hide Fronted, Step;
    if calls != [] {
      var last := |calls| - 1;
      RunKeepsFront(env, fw, calls[..last], c);
      RunKeepsBlocks(env, fw, calls[..last]);
      RunKeepsBlocks(env, fw, calls);
      StepKeepsFront(env, Run(env, fw, calls[..last]), calls[last].who, calls[last].op, c);
    }
  }
}
