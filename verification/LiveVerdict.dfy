/** What the requester really gets on port 443, client blocks included, over whole runs of its own calls. */
module LiveVerdict {
  import opened Wrappers
  import opened Sequences
  import opened Rules
  import opened Lockout
  import opened Discovery
  import opened Firewall
  import opened Edits
  import opened Mirror
  import opened BlockRules
  import opened BlockMirror
  import opened BlockFronts
  import opened Adoption
  import opened SelfLockout

  /** The application's own rules and nothing else: block rules in front, tagged rules behind. */
  ghost predicate OnlyOwn(chain: seq<LiveRule>) {
    && (forall r :: r in chain ==> OwnBlock(INPUT, r) || Owned(r))
    && forall i, j :: 0 <= i < j < |chain| && Owned(chain[i]) ==> Owned(chain[j])
  }

  ghost predicate SinglePortTable(env: Env, t: Table) {
    forall id :: id in t ==> SinglePort(env, t[id].rule)
  }

  /** Table and chains in step, and INPUT all the application's own. */
  ghost predicate Guarded(env: Env, fw: Fw) {
    && Intact(fw) && PlainIds(fw) && BlocksShown(fw)
    && OnlyOwn(fw.live.input) && SinglePortTable(env, fw.table)
  }

  /** A client block that is switched on covers the address. */
  ghost predicate Covered(env: Env, t: Table, ip: string) {
    exists id :: Covers(env, t, ip, id)
  }

  predicate Covers(env: Env, t: Table, ip: string, id: int) {
    id in t && t[id].enabled && t[id].rule.ClientBlock? && env.contains(t[id].rule.clientIp, ip)
  }

  // ---------- the live verdict ----------

  lemma {:induction false} VerdictSplits(env: Env, chain: seq<LiveRule>, ip: string)
    requires OnlyOwn(chain) && forall r :: r in chain && OwnBlock(INPUT, r) ==> r.target == Target.Jump(DROP)
    ensures LiveAllows(env, chain, ip)
            <==> LiveAllows(env, Filter(Owned, chain), ip)
                 && forall r :: r in chain && OwnBlock(INPUT, r) ==> !LiveMatches(env, r, ip)
  {
    hide LiveMatches;
    if chain != [] {
      if Owned(chain[0]) {
        assert forall r :: r in chain ==> Owned(r);
        FilterAll(Owned, chain);
      } else {
        assert forall r :: r in chain <==> r == chain[0] || r in chain[1..];
        VerdictSplits(env, chain[1..], ip);
      }
    }
  }

  /** The block rules in INPUT are those of the rows that are switched on. */
  lemma BlocksInInput(fw: Fw, r: LiveRule)
    requires BlocksShown(fw) && OwnBlock(INPUT, r)
    ensures r in fw.live.input
            <==> exists id :: id in fw.table && fw.table[id].enabled && fw.table[id].rule.ClientBlock?
                              && r == Printed(fw.table[id], INPUT)
  {
    hide Printed;
    var name := r.comment.rest[4..];
    assert r.comment == TagOf(INPUT, name) by { assert "-in:" + name == r.comment.rest; }
    assert Shown(fw.table, fw.live, name, INPUT);
    assert r in fw.live.At(INPUT) <==> r in BlocksOf(fw.live, INPUT, name);
    forall id | id in fw.table && fw.table[id].enabled && fw.table[id].rule.ClientBlock?
                && r == Printed(fw.table[id], INPUT)
      ensures Blocking(fw.table, name, id)
    {
      PrintedBlock(fw.table[id], INPUT);
      if fw.table[id].rule.clientName != name { TagsDiffer(INPUT, name, fw.table[id].rule.clientName); }
    }
  }

  lemma BlockMatches(env: Env, row: Row, ip: string)
    requires row.rule.ClientBlock?
    ensures OwnBlock(INPUT, Printed(row, INPUT)) && Printed(row, INPUT).target == Target.Jump(DROP)
    ensures LiveMatches(env, Printed(row, INPUT), ip) <==> env.contains(row.rule.clientIp, ip)
  {
  }

  /** An address reaches the web UI if and only if the INPUT rows let it and no block that is switched on covers it. */
  lemma LiveVerdictIs(env: Env, fw: Fw, ip: string)
    requires Guarded(env, fw) && env.isAddress(ip)
    ensures LiveAllows(env, fw.live.input, ip) <==> Allows(env, fw.table, ip) && !Covered(env, fw.table, ip)
  {
    hide LiveAllows, Filter, Printed, LiveMatches, BlocksShown, Allows;
    var chain := fw.live.input;
    forall r | r in chain && OwnBlock(INPUT, r)
      ensures r.target == Target.Jump(DROP)
    {
      BlocksInInput(fw, r);
      var id :| id in fw.table && fw.table[id].rule.ClientBlock? && r == Printed(fw.table[id], INPUT);
      BlockMatches(env, fw.table[id], ip);
    }
    VerdictSplits(env, chain, ip);
    TaggedVerdict(env, fw, ip);
    if r :| r in chain && OwnBlock(INPUT, r) && LiveMatches(env, r, ip) {
      BlocksInInput(fw, r);
      var id :| id in fw.table && fw.table[id].enabled && fw.table[id].rule.ClientBlock?
                && r == Printed(fw.table[id], INPUT);
      BlockMatches(env, fw.table[id], ip);
      assert Covers(env, fw.table, ip, id);
    }
    if id :| Covers(env, fw.table, ip, id) {
      BlockMatches(env, fw.table[id], ip);
      BlocksInInput(fw, Printed(fw.table[id], INPUT));
    }
  }

  lemma TaggedVerdict(env: Env, fw: Fw, ip: string)
    requires InSync(fw) && SinglePortTable(env, fw.table) && env.isAddress(ip)
    ensures LiveAllows(env, Filter(Owned, fw.live.input), ip) == Allows(env, fw.table, ip)
  {
    hide Ordered, FirstMatchAllows, LiveAllows, PrintAll, Filter;
    InputOrder(fw.table);
    OrderedFacts(fw.table, INPUT);
    assert ChainInSync(fw.table, fw.live, INPUT);
    GuardIsLive(env, Ordered(fw.table, INPUT), ip);
  }

  // ---------- INPUT stays the application's own ----------

  /** Block rules in front and no foreign rule: that is all. */
  lemma OwnIs(live: LiveChains)
    ensures OnlyOwn(live.input) <==> BlocksFirst(INPUT, live.input) && Filter(Foreign, live.input) == []
  {
    var chain := live.input;
    if Filter(Foreign, chain) == [] {
      forall r | r in chain
        ensures Owned(r) || r.comment.BlockTag?
      {
        assert r in Filter(Foreign, chain) <==> Foreign(r);
      }
    }
    if OnlyOwn(chain) { FilterNone(Foreign, chain); }
  }

  /** Nothing in such a chain can be adopted, so discovery leaves it as it is. */
  lemma OwnIsNotAdoptable(fw: Fw)
    requires InSync(fw) && OnlyOwn(fw.live.input)
    ensures !Adoptable(fw, INPUT)
  {
    hide Ordered, PrintAll, Adopt, Filter;
    assert ChainInSync(fw.table, fw.live, INPUT);
    forall r | r in fw.live.At(INPUT)
      ensures !Candidate(fw.table, INPUT, r)
    {
      if Owned(r) {
        assert r in Filter(Owned, fw.live.At(INPUT));
        ShownIsRow(fw.table, INPUT, r);
      }
    }
  }

  lemma StepKeepsOwn(env: Env, fw: Fw, who: Option<string>, op: Op)
    requires Intact(fw) && (op.Discover? ==> !Portless(fw)) && OnlyOwn(fw.live.input)
    ensures OnlyOwn(Step(env, fw, who, op).fw.live.input)
  {
    hide Step, OnlyOwn, BlocksFirst, Portless, CompleteTable, Filter;
    OwnIs(fw.live);
    StepKeepsMirror(env, fw, who, op);
    StepKeepsFront(env, fw, who, op, INPUT);
    var live' := Step(env, fw, who, op).fw.live;
    NoForeign(KeptBy(op, INPUT), fw.live.input);
    assert Filter(Foreign, live'.At(INPUT)) == Filter(KeptBy(op, INPUT), fw.live.At(INPUT));
    OwnIs(live');
  }

  lemma NoForeign(keep: LiveRule -> bool, chain: seq<LiveRule>)
    requires Filter(Foreign, chain) == [] && forall r :: keep(r) ==> Foreign(r)
    ensures Filter(keep, chain) == []
  {
    forall r | r in chain
      ensures !keep(r)
    {
      assert r in Filter(Foreign, chain) <==> Foreign(r);
    }
    FilterNone(keep, chain);
  }

  // ---------- which calls switch a block on ----------

  /** The call puts a block into force that covers the address.  Only the textually same address is refused, and only
      by a block request. */
  ghost predicate SwitchesOn(env: Env, fw: Fw, op: Op, ip: string) {
    match op
    case Toggle(id) =>
      && id in fw.table && !fw.table[id].enabled && fw.table[id].rule.ClientBlock?
      && env.contains(fw.table[id].rule.clientIp, ip)
    case Block(name, blocked) => BlockRow(fw.table, name).None? && blocked != ip && env.contains(blocked, ip)
    case _ => false
  }

  /** No block more in force than before. */
  lemma NotCovered(env: Env, t: Table, t': Table, ip: string)
    requires !Covered(env, t, ip)
    requires forall id :: id in t' && t'[id].enabled && t'[id].rule.ClientBlock? ==> id in t && t'[id] == t[id]
    ensures !Covered(env, t', ip)
  {
    forall id
      ensures !Covers(env, t', ip, id)
    {
      assert !Covers(env, t, ip, id);
    }
  }

  /** One row more in force. */
  lemma CoveredByNew(env: Env, t: Table, row: Row, ip: string)
    requires !Covered(env, t, ip)
    ensures Covered(env, t[row.id := row], ip)
            <==> row.enabled && row.rule.ClientBlock? && env.contains(row.rule.clientIp, ip)
  {
    var t' := t[row.id := row];
    forall id | id != row.id
      ensures !Covers(env, t', ip, id)
    {
      assert !Covers(env, t, ip, id);
    }
    assert Covers(env, t', ip, row.id) <==> row.enabled && row.rule.ClientBlock? && env.contains(row.rule.clientIp, ip);
  }

  lemma CoveredAfter(env: Env, fw: Fw, op: Op, ip: string)
    requires WellKept(fw) && !env.hubMode && !Covered(env, fw.table, ip)
    ensures Covered(env, Step(env, fw, Some(ip), op).fw.table, ip) <==> SwitchesOn(env, fw, op, ip)
  {
    hide Apply, Unapply, Rebuilt, ReapplyBlocks, DropPosition, LocksOut, MaxPosition, UnrestrictedDrop, Scanned,
      DiscoverAll, Reached, Stops, AfterUnapply, ResyncReaches, SimulatedMove, Visited, Covered, BlockRow;
    var t, t' := fw.table, Step(env, fw, Some(ip), op).fw.table;
    match op {
      case Add(r, note) => CoveredAfterAdd(env, fw, r, note, ip);
      case Toggle(id) => CoveredAfterToggle(env, fw, id, ip);
      case Disable(id) => NotCovered(env, t, t', ip);
      case Delete(id) => NotCovered(env, t, t', ip);
      case Reorder(id, target, side) => NotCovered(env, t, t', ip);
      case Block(name, blocked) => CoveredAfterBlock(env, fw, name, blocked, ip);
      case Unblock(name) => NotCovered(env, t, t', ip);
      case Resync =>
      case Discover =>
        DiscoverAddsNoBlock(env, fw);
        NotCovered(env, t, t', ip);
    }
  }

  lemma CoveredAfterAdd(env: Env, fw: Fw, r: Rule, note: string, ip: string)
    requires !Covered(env, fw.table, ip)
    ensures !Covered(env, AddRule(env, fw, Some(ip), r, note).fw.table, ip)
  {
    hide Apply, LocksOut, MaxPosition, UnrestrictedDrop, Covered;
    var t' := AddRule(env, fw, Some(ip), r, note).fw.table;
    if t' != fw.table { CoveredByNew(env, fw.table, t'[fw.nextId], ip); }
  }

  lemma CoveredAfterBlock(env: Env, fw: Fw, name: string, blocked: string, ip: string)
    requires !env.hubMode && !Covered(env, fw.table, ip)
    ensures Covered(env, BlockClient(env, fw, Some(ip), name, blocked).fw.table, ip)
            <==> SwitchesOn(env, fw, Op.Block(name, blocked), ip)
  {
    hide Apply, MaxPosition, Covered, BlockRow;
    if BlockRow(fw.table, name).None? && blocked != ip {
      CoveredByNew(env, fw.table, BlockClient(env, fw, Some(ip), name, blocked).fw.table[fw.nextId], ip);
    }
  }

  lemma CoveredAfterToggle(env: Env, fw: Fw, id: int, ip: string)
    requires WellKept(fw) && !Covered(env, fw.table, ip)
    ensures Covered(env, ToggleRule(env, fw, Some(ip), id).fw.table, ip) <==> SwitchesOn(env, fw, Op.Toggle(id), ip)
  {
    hide Apply, Unapply, Rebuilt, LocksOut, UnrestrictedDrop, Reached, Stops, AfterUnapply, Covered;
    var t, t' := fw.table, ToggleRule(env, fw, Some(ip), id).fw.table;
    if id in t && t' != t { CoveredByNew(env, t, t'[id], ip); }
  }

  lemma DiscoverAddsNoBlock(env: Env, fw: Fw)
    requires WellKept(fw)
    ensures forall id :: id in Discovered(env, fw).table && Discovered(env, fw).table[id].rule.ClientBlock? ==>
              id in fw.table && Discovered(env, fw).table[id] == fw.table[id]
  {
    hide Scanned;
    ScannedNew(fw, 4);
  }

  // ---------- what the other hypotheses need ----------

  /** A discovery records no INPUT rule there, and its ids go on from the sequence. */
  lemma DiscoverKeepsPlain(env: Env, fw: Fw)
    requires InSync(fw) && PlainIds(fw) && OnlyOwn(fw.live.input) && SinglePortTable(env, fw.table)
    requires WellKept(Discovered(env, fw))
    ensures PlainIds(Discovered(env, fw)) && SinglePortTable(env, Discovered(env, fw).table)
  {
    hide Scanned, OnlyOwn, InSync, AdoptedRows, SinglePort;
    var t' := Scanned(fw, 4).0.table;
    SyncedIsKept(fw);
    ScannedNew(fw, 4);
    OwnIsNotAdoptable(fw);
    NothingAdopted(fw, 1);
    ScannedRows(fw, 4, 1);
    assert EnabledIn(t', INPUT) == EnabledIn(fw.table, INPUT) by {
      assert Elements<Row>([]) == {};
    }
    forall id | id in t' && id !in fw.table
      ensures SinglePort(env, t'[id].rule)
    {
      if t'[id].rule.Input? {
        assert t'[id] in EnabledIn(t', INPUT);
      }
      NotInput(env, t'[id].rule);
    }
  }

  lemma NotInput(env: Env, r: Rule)
    ensures !r.Input? ==> SinglePort(env, r)
  {
  }

  lemma SyncedIsKept(fw: Fw)
    requires InSync(fw)
    ensures WellKept(fw)
  {
  }

  lemma OtherCallsKeepSingle(env: Env, fw: Fw, who: Option<string>, op: Op)
    requires WellKept(fw) && SinglePortTable(env, fw.table) && !op.Discover? && (op.Add? ==> SinglePort(env, op.rule))
    ensures SinglePortTable(env, Step(env, fw, who, op).fw.table)
  {
    hide Step, DropPosition, MaxPosition, CanReorder, SinglePort;
    var e := EditOf(env, fw, who, op);
    if e.Put? { NotInput(env, e.row.rule); }
    if op.Reorder? && e.Put? { InTable(fw.table, op.id, op.target); }
  }

  // ---------- one call ----------

  /** A call by the address itself: afterwards it still reaches the web UI if and only if it did not switch a block
      on that covers it. */
  lemma StaysLiveIff(env: Env, fw: Fw, ip: string, op: Op)
    requires Guarded(env, fw) && !env.hubMode && env.isAddress(ip)
    requires (op.Add? ==> SinglePort(env, op.rule)) && (op.Discover? ==> !Portless(fw))
    requires LiveAllows(env, fw.live.input, ip)
    ensures Guarded(env, Step(env, fw, Some(ip), op).fw)
    ensures LiveAllows(env, Step(env, fw, Some(ip), op).fw.live.input, ip) <==> !SwitchesOn(env, fw, op, ip)
  {
    hide Step, LiveAllows, Allows, OnlyOwn, BlocksShown, SinglePortTable, InSync, CompleteTable, Portless, Covered,
      SwitchesOn, Filter;
    var after := Step(env, fw, Some(ip), op).fw;
    LiveVerdictIs(env, fw, ip);
    StepKeepsMirror(env, fw, Some(ip), op);
    StepKeepsBlocks(env, fw, Some(ip), op);
    StepKeepsOwn(env, fw, Some(ip), op);
    SyncedIsKept(after);
    if op.Discover? {
      DiscoverIsStep(env, fw, Some(ip));
      DiscoverKeepsPlain(env, fw);
      NothingToAdoptInput(env, fw, ip);
    } else {
      OtherCallsKeepSingle(env, fw, Some(ip), op);
      StaysAllowed(env, fw, ip, op);
      LiveVerdictIs(env, after, ip);
      CoveredAfter(env, fw, op, ip);
    }
  }

  lemma DiscoverIsStep(env: Env, fw: Fw, who: Option<string>)
    ensures Step(env, fw, who, Op.Discover).fw == Discovered(env, fw)
  {
    hide DiscoverAll;
  }

  lemma NothingToAdoptInput(env: Env, fw: Fw, ip: string)
    requires InSync(fw) && OnlyOwn(fw.live.input)
    ensures Discovered(env, fw).live.input == fw.live.input && !SwitchesOn(env, fw, Op.Discover, ip)
  {
    hide OnlyOwn, InSync, DiscoverAll;
    OwnIsNotAdoptable(fw);
    NothingToAdopt(env, fw, INPUT);
    assert fw.live.At(INPUT) == fw.live.input;
  }

  // ---------- whole runs ----------

  /** The k-th call of the run, on the state it meets, switches on a block that covers the address. */
  ghost predicate SwitchesOnAt(env: Env, fw: Fw, calls: seq<Call>, k: nat, ip: string)
    requires k < |calls|
  {
    SwitchesOn(env, Run(env, fw, calls[..k]), calls[k].op, ip)
  }

  ghost predicate LiveAt(env: Env, fw: Fw, calls: seq<Call>, k: nat, ip: string)
    requires k <= |calls|
  {
    LiveAllows(env, Run(env, fw, calls[..k]).live.input, ip)
  }

  /** The address's own calls, with single ports only. */
  ghost predicate OwnCalls(env: Env, calls: seq<Call>, ip: string) {
    forall k :: 0 <= k < |calls| ==>
      calls[k].who == Some(ip) && (calls[k].op.Add? ==> SinglePort(env, calls[k].op.rule))
  }

  lemma {:induction false} GuardedUpTo(env: Env, fw: Fw, ip: string, calls: seq<Call>, n: nat)
    requires Guarded(env, fw) && !env.hubMode && env.isAddress(ip) && OwnCalls(env, calls, ip) && n <= |calls|
    requires Discovers(calls) ==> !Portless(fw)
    requires forall k :: 0 <= k < n ==> LiveAt(env, fw, calls, k, ip)
    ensures Guarded(env, Run(env, fw, calls[..n]))
    ensures n > 0 ==> (LiveAt(env, fw, calls, n, ip) <==> !SwitchesOnAt(env, fw, calls, n - 1, ip))
  {
    hide Guarded, SwitchesOn, LiveAllows, Step, Portless, SinglePort;
    if n == 0 {
      assert calls[..0] == [];
    } else {
      GuardedUpTo(env, fw, ip, calls, n - 1);
      assert calls[..n][..n - 1] == calls[..n - 1] && calls[..n][n - 1] == calls[n - 1];
      GuardedIsIntact(env, fw);
      PortsAt(env, fw, calls, n - 1);
      assert LiveAt(env, fw, calls, n - 1, ip);
      StaysLiveIff(env, Run(env, fw, calls[..n - 1]), ip, calls[n - 1].op);
    }
  }

  lemma GuardedIsIntact(env: Env, fw: Fw)
    requires Guarded(env, fw)
    ensures Intact(fw)
  {
  }

  lemma PortsAt(env: Env, fw: Fw, calls: seq<Call>, k: nat)
    requires Intact(fw) && k < |calls| && (Discovers(calls) ==> !Portless(fw))
    ensures calls[k].op.Discover? ==> !Portless(Run(env, fw, calls[..k]))
  {
    hide Intact, Portless, Run, Filter;
    assert Discovers(calls[..k]) ==> Discovers(calls) by {
      if j :| 0 <= j < |calls[..k]| && calls[..k][j].op.Discover? { assert calls[j].op.Discover?; }
    }
    RunKeepsMirror(env, fw, calls[..k]);
    StaysPortless(env, fw, calls[..k]);
  }

  /** Over a whole run of its own calls, discoveries included, an address that reaches the web UI does so after every
      one of them if and only if none of them switches on a client block that covers it. */
  lemma NeverCutOffIff(env: Env, fw: Fw, ip: string, calls: seq<Call>)
    requires Guarded(env, fw) && !env.hubMode && env.isAddress(ip) && OwnCalls(env, calls, ip)
    requires Discovers(calls) ==> !Portless(fw)
    requires LiveAllows(env, fw.live.input, ip)
    ensures (forall k :: 0 <= k <= |calls| ==> LiveAt(env, fw, calls, k, ip))
            <==> (forall k :: 0 <= k < |calls| ==> !SwitchesOnAt(env, fw, calls, k, ip))
  {
    hide Guarded, SwitchesOnAt, LiveAt, Portless, OwnCalls, Discovers, Run, LiveAllows;
    if forall k :: 0 <= k <= |calls| ==> LiveAt(env, fw, calls, k, ip) {
      forall k | 0 <= k < |calls|
        ensures !SwitchesOnAt(env, fw, calls, k, ip)
      {
        GuardedUpTo(env, fw, ip, calls, k + 1);
      }
    }
    if forall k :: 0 <= k < |calls| ==> !SwitchesOnAt(env, fw, calls, k, ip) {
      LiveUpTo(env, fw, ip, calls, |calls|);
    }
  }

  lemma {:induction false} LiveUpTo(env: Env, fw: Fw, ip: string, calls: seq<Call>, n: nat)
    requires Guarded(env, fw) && !env.hubMode && env.isAddress(ip) && OwnCalls(env, calls, ip) && n <= |calls|
    requires Discovers(calls) ==> !Portless(fw)
    requires LiveAllows(env, fw.live.input, ip)
    requires forall k :: 0 <= k < n ==> !SwitchesOnAt(env, fw, calls, k, ip)
    ensures forall k :: 0 <= k <= n ==> LiveAt(env, fw, calls, k, ip)
  {
    hide Guarded, SwitchesOnAt, LiveAt, Portless, OwnCalls, Discovers, Run, LiveAllows;
    if n == 0 {
      LiveAtStart(env, fw, calls, ip);
    } else {
      LiveUpTo(env, fw, ip, calls, n - 1);
      GuardedUpTo(env, fw, ip, calls, n);
    }
  }

  lemma LiveAtStart(env: Env, fw: Fw, calls: seq<Call>, ip: string)
    requires LiveAllows(env, fw.live.input, ip)
    ensures LiveAt(env, fw, calls, 0, ip)
  {
    assert calls[..0] == [];
  }

  // ---------- the toggle that the guard does not see ----------

  /** A block of the requester's own address that is switched off, in an otherwise empty system.  The guard lets the
      requester switch it on, and the rules it reads go on allowing the requester, who is cut off. */
  lemma TogglingABlockCutsOff(env: Env, name: string, ip: string)
    requires !env.hubMode && env.isAddress(ip) && env.contains(ip, ip)
    ensures var fw := Fw(map[1 := Row(1, ClientBlock(name, ip), "", false, 1.0)], 2, LiveChains([], [], [], []));
            var reply := Step(env, fw, Some(ip), Op.Toggle(1));
            && Guarded(env, fw) && reply.result == Completed
            && Allows(env, fw.table, ip) && Allows(env, reply.fw.table, ip)
            && LiveAllows(env, fw.live.input, ip) && !LiveAllows(env, reply.fw.live.input, ip)
  {
    var row := Row(1, ClientBlock(name, ip), "", false, 1.0);
    var fw := Fw(map[1 := row], 2, LiveChains([], [], [], []));
    EmptyIsGuarded(env, fw);
    hide Guarded, Allows, LiveAllows, Covered, Apply;
    assert LiveAllows(env, [], ip) by { EmptyAllows(env, ip); }
    LiveVerdictIs(env, fw, ip);
    StaysLiveIff(env, fw, ip, Op.Toggle(1));
    StaysAllowed(env, fw, ip, Op.Toggle(1));
  }

  lemma EmptyAllows(env: Env, ip: string)
    ensures LiveAllows(env, [], ip)
  {
  }

  lemma EmptyIsGuarded(env: Env, fw: Fw)
    requires fw.live == LiveChains([], [], [], []) && PlainIds(fw)
    requires forall id :: id in fw.table ==> !fw.table[id].enabled && fw.table[id].rule.ClientBlock?
    requires OneBlockEach(fw.table)
    ensures Guarded(env, fw)
  {
    forall c
      ensures ChainInSync(fw.table, fw.live, c)
    {
      UnusedIsEmpty(fw.table, c);
      FilterNone(Owned, fw.live.At(c));
    }
  }
}
