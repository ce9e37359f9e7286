/** The rule engine as the application runs it: methods that edit the table and issue one iptables command at a time,
    each proved to have exactly the effect that module Firewall specifies. */
module FirewallApp {
  import opened Wrappers
  import opened Sequences
  import opened Rules
  import opened Lockout
  import opened Discovery
  import opened Firewall
  import opened Mirror

  /** sorted(rows, key=(position, id)). */
  method SortRows(rows: set<Row>) returns (s: seq<Row>)
    requires DistinctIds(rows)
    ensures s == Sorted(rows)
  {
    s := [];
    var rest := rows;
    while rest != {}
      invariant rest <= rows && Ascending(s) && Elements(s) == rows - rest
      decreases rest
    {
      var r :| r in rest;
      ghost var before := s;
      var i := 0;
      while i < |s| && Less(s[i], r)
        invariant 0 <= i <= |s|
        invariant forall k :: 0 <= k < i ==> Less(s[k], r)
      {
        i := i + 1;
      }
      InsertAt(rows, s, r, i, rest);
      s := s[..i] + [r] + s[i..];
      rest := rest - {r};
    }
    assert Elements(s) == rows;
    SortedIs(rows, s);
  }

  lemma InsertAt(rows: set<Row>, s: seq<Row>, r: Row, i: nat, rest: set<Row>)
    requires DistinctIds(rows) && rest <= rows && r in rest && i <= |s|
    requires Ascending(s) && Elements(s) == rows - rest
    requires (forall k :: 0 <= k < i ==> Less(s[k], r)) && (i < |s| ==> !Less(s[i], r))
    ensures Ascending(s[..i] + [r] + s[i..])
    ensures Elements(s[..i] + [r] + s[i..]) == rows - (rest - {r})
  {
    forall x | x in s
      ensures x in rows - rest && x.id != r.id
    {
      assert x in Elements(s);
    }
    StillAscending(s, r, i);
    hide Ascending, Less, DistinctIds;
    forall x
      ensures x in s[..i] + [r] + s[i..] <==> x in s || x == r
    {
      assert s == s[..i] + s[i..];
    }
    forall x
      ensures x in Elements(s[..i] + [r] + s[i..]) <==> x in rows - (rest - {r})
    {
      assert x in s <==> x in Elements(s);
    }
  }

  lemma StillAscending(s: seq<Row>, r: Row, i: nat)
    requires Ascending(s) && i <= |s| && forall x :: x in s ==> x.id != r.id
    requires (forall k :: 0 <= k < i ==> Less(s[k], r)) && (i < |s| ==> !Less(s[i], r))
    ensures Ascending(s[..i] + [r] + s[i..])
  {
    forall k | i <= k < |s|
      ensures Less(r, s[k])
    {
      assert s[i].id != r.id && (k == i || Less(s[i], s[k]));
    }
  }

  /** COALESCE(MAX(position), 0) over some rows. */
  method TopPosition(rows: set<Row>) returns (p: real)
    ensures p == MaxPosition(rows)
  {
    p := 0.0;
    var rest := rows;
    while rest != {}
      invariant rest <= rows
      invariant rest == rows ==> p == 0.0
      invariant rest != rows ==> exists m :: Topmost(rows - rest, m) && m.position == p
      decreases rest
    {
      var r :| r in rest;
      var done := rows - rest;
      assert rows - (rest - {r}) == done + {r};
      if done == {} || r.position > p {
        p := r.position;
        assert Topmost(done + {r}, r);
      } else {
        ghost var m :| Topmost(done, m) && m.position == p;
        assert Topmost(done + {r}, m);
      }
      rest := rest - {r};
    }
    assert rows - {} == rows;
    MaxPositionBounds(rows);
  }

  method CheckSelfLockout(env: Env, who: Option<string>, simulated: set<Row>) returns (refuse: bool)
    requires DistinctIds(simulated)
    ensures refuse == LocksOut(env, who, simulated)
  {
    if who.None? || env.hubMode {
      return false;
    }
    var rows := SortRows(simulated);
    var allowed := WalkInputRules(env, rows, who.value);
    return !allowed;
  }

  class App {
    var table: Table
    var nextId: int
    var live: LiveChains

    ghost function State(): Fw
      reads this
    {
      Fw(table, nextId, live)
    }

    ghost predicate Valid()
      reads this
    {
      PlainState(State())
    }

    constructor (existing: LiveChains)
      ensures Valid() && State() == Fw(map[], 1, existing)
    {
      table, nextId, live := map[], 1, existing;
    }

    // ---------- single commands ----------

    /** iptables -A, or -I for a block rule. */
    method AddLive(row: Row, c: Chain)
      modifies this`live
      ensures live == AddTo(old(live), row, c)
    {
      if row.rule.ClientBlock? {
        live := live.Put(c, [Printed(row, c)] + live.At(c));
      } else {
        live := live.Put(c, live.At(c) + [Printed(row, c)]);
      }
    }

    /** iptables -D: the first equal rule goes, or the command fails. */
    method DeleteLive(r: LiveRule, c: Chain) returns (ok: bool)
      modifies this`live
      ensures ok == (r in old(live).At(c))
      ensures live == if ok then DeleteFrom(old(live), r, c) else old(live)
    {
      ok := r in live.At(c);
      if ok {
        live := live.Put(c, Without(live.At(c), r));
      }
    }

    method ApplyRow(row: Row)
      modifies this`live
      ensures live == Apply(old(live), row)
    {
      var h := Halves(row.rule);
      AddLive(row, h[0]);
      if |h| > 1 {
        AddLive(row, h[1]);
      }
    }

    /** _unapply: the second command is not issued when the first fails, or when it cannot be built. */
    method UnapplyRow(row: Row) returns (ok: bool, broken: bool)
      modifies this`live
      ensures (live, ok) == Unapply(old(live), row) && broken == UnapplyBreaks(old(live), row)
    {
      var h := Halves(row.rule);
      if !CanPrint(row.rule, h[0]) {
        return false, true;
      }
      broken := false;
      ok := DeleteLive(Printed(row, h[0]), h[0]);
      if ok && |h| > 1 {
        if !CanPrint(row.rule, h[1]) {
          return false, true;
        }
        ok := DeleteLive(Printed(row, h[1]), h[1]);
      }
    }

    // ---------- rebuilding a chain ----------

    /** First phase: every numerically tagged rule of the chain is deleted, one command each. */
    method DeleteTagged(c: Chain)
      modifies this`live
      ensures live == old(live).Put(c, Filter(NotOwned, old(live).At(c)))
    {
      hide Filter, Without, Owned;
      ghost var before := live;
      var specs := live.At(c);
      NoneCleared(live, c);
      for i := 0 to |specs|
        invariant live == before.Put(c, PartlyCleared(specs, i))
      {
        ClearStep(specs, i);
        if Owned(specs[i]) {
          var ok := DeleteLive(specs[i], c);
          PutTwice(before, c, PartlyCleared(specs, i), PartlyCleared(specs, i + 1));
        }
      }
      AllCleared(specs);
    }

    /** Second phase: the rows are appended in order, up to the first whose command cannot be built. */
    method AppendRows(c: Chain, rows: seq<Row>) returns (stuck: bool)
      requires forall k :: 0 <= k < |rows| ==> !rows[k].rule.ClientBlock?
      modifies this`live
      ensures live == old(live).Put(c, old(live).At(c) + PrintAll(PrintableFront(rows, c), c))
      ensures stuck == (PrintableFront(rows, c) != rows)
    {
      hide Printed, PrintAll, PrintableFront, AddTo;
      ghost var before, kept := live, live.At(c);
      NoneAppended(live, c, rows);
      for k := 0 to |rows|
        invariant live == before.Put(c, kept + PrintAll(rows[..k], c))
        invariant forall m :: 0 <= m < k ==> CanPrint(rows[m].rule, c)
      {
        if !CanPrint(rows[k].rule, c) {
          FrontEnds(rows, k, c);
          return true;
        }
        AddLive(rows[k], c);
        OneMoreAppended(before, kept, rows, k, c);
      }
      assert rows[..|rows|] == rows;
      FrontEnds(rows, |rows|, c);
      return false;
    }

    /** _rebuild_chain_unlocked: delete what is tagged, then append the enabled rows in order.
        Nothing outside the chain changes. */
    method RebuildChain(c: Chain) returns (stuck: bool)
      requires Keyed(table)
      modifies this`live
      ensures live == old(live).Put(c, RebuiltChain(table, old(live), c)) && stuck == Stuck(table, c)
    {
      hide Filter, PrintAll, PrintableFront;
      DeleteTagged(c);
      EnabledDistinct(table, c);
      var rows := SortRows(EnabledIn(table, c));
      RowsAreUnblocked(table, c, rows);
      stuck := AppendRows(c, rows);
      PutTwice(old(live), c, Filter(NotOwned, old(live).At(c)), RebuiltChain(table, old(live), c));
    }

    /** _rebuild_chain for chain after chain: an exception ends the loop, unless the caller swallows it. */
    method RebuildChains(order: seq<Chain>, onward: bool) returns (broken: bool)
      requires Keyed(table) && forall i, j :: 0 <= i < j < |order| ==> order[i] != order[j]
      modifies this`live
      ensures live == Rebuilt(table, old(live), if onward then Elements(order) else Reached(table, order))
      ensures broken == Stops(table, order)
    {
      hide RebuiltChain, Stuck;
      ghost var before := live;
      broken := false;
      SameChains(live, Rebuilt(table, before, {}));
      for i := 0 to |order|
        invariant live == Rebuilt(table, before, Elements(order[..i]))
        invariant broken == Stops(table, order[..i]) && (broken ==> onward)
      {
        var c := order[i];
        ghost var mid := live;
        var stuck := RebuildChain(c);
        OneMoreRebuilt(table, before, mid, order, i);
        if stuck && !onward {
          ReachedTo(table, order, i);
          return true;
        }
        broken := broken || stuck;
      }
      assert order[..|order|] == order;
      if !broken {
        NothingStops(table, order);
      }
    }

    // ---------- operations ----------

    method AddRule(env: Env, who: Option<string>, r: Rule, note: string) returns (result: Result)
      requires Valid()
      modifies this
      ensures Valid() && Reply(State(), result) == Firewall.AddRule(env, old(State()), who, r, note)
    {
      hide Apply, LocksOut, WouldAllow, OneBlockEach, MaxPosition;
      if MalformedAdd(env, r) {
        return Rejected;
      }
      if r.Input? {
        var existing := EnabledInput(table);
        var top := TopPosition(existing);
        var simulated := existing + {Row(-1, r, "", true, top + 1.0)};
        var refuse := CheckSelfLockout(env, who, simulated);
        if refuse {
          return Rejected;
        }
      }
      var overall := TopPosition(AllRows(table));
      var row := Row(nextId, r, note, true, overall + 1.0);
      BlocksKept(table, table[nextId := row]);
      table, nextId := table[nextId := row], nextId + 1;
      ApplyRow(row);
      return Completed;
    }

    method EnableRow(env: Env, who: Option<string>, id: int) returns (result: Result)
      requires Valid() && id in table && !table[id].enabled
      modifies this
      ensures Valid() && Reply(State(), result) == EnableRule(env, old(State()), who, id)
    {
      hide Apply, LocksOut, WouldAllow, OneBlockEach, Rebuilt, Reached, Stops, Stuck;
      var row := table[id].(enabled := true);
      if row.rule.Input? {
        if UnrestrictedDrop(row.rule) {
          return Rejected;
        }
        var refuse := CheckSelfLockout(env, who, OtherInput(table, id) + {row});
        if refuse {
          return Rejected;
        }
      }
      BlocksKept(table, table[id := row]);
      table := table[id := row];
      if row.rule.ClientBlock? {
        ApplyRow(row);
        return Completed;
      }
      HalvesDiffer(row.rule);
      var broken := RebuildChains(Halves(row.rule), false);
      return if broken then Broken else Completed;
    }

    method DisableRule(env: Env, who: Option<string>, id: int) returns (result: Result)
      requires Valid()
      modifies this
      ensures Valid() && Reply(State(), result) == Firewall.DisableRule(env, old(State()), who, id)
    {
      hide Unapply, LocksOut, WouldAllow, OneBlockEach;
      if id !in table || !table[id].enabled {
        return Completed;
      }
      var row := table[id];
      if row.rule.Input? {
        var refuse := CheckSelfLockout(env, who, OtherInput(table, id));
        if refuse {
          return Rejected;
        }
      }
      BlocksKept(table, table[id := row.(enabled := false)]);
      table := table[id := row.(enabled := false)];
      var gone, broken := UnapplyRow(row);
      return if broken && !env.hubMode then Broken else Completed;
    }

    /** toggle_rule. */
    method ToggleRule(env: Env, who: Option<string>, id: int) returns (result: Result)
      requires Valid()
      modifies this
      ensures Valid() && Reply(State(), result) == Firewall.ToggleRule(env, old(State()), who, id)
    {
      if id !in table {
        result := Rejected;
      } else if table[id].enabled {
        result := DisableRule(env, who, id);
      } else {
        result := EnableRow(env, who, id);
      }
    }

    method DeleteRule(env: Env, who: Option<string>, id: int) returns (result: Result)
      requires Valid()
      modifies this
      ensures Valid() && Reply(State(), result) == Firewall.DeleteRule(env, old(State()), who, id)
    {
      hide Unapply, LocksOut, WouldAllow, OneBlockEach;
      if id !in table {
        return Completed;
      }
      var row := table[id];
      if row.rule.Input? {
        var refuse := CheckSelfLockout(env, who, OtherInput(table, id));
        if refuse {
          return Rejected;
        }
      }
      BlocksKept(table, table - {id});
      table := table - {id};
      if !row.enabled {
        return Completed;
      }
      var gone, broken := UnapplyRow(row);
      return if broken && !env.hubMode then Broken else Completed;
    }

    /** reorder_rule: read, check and write, then rebuild every chain of the moved row. */
    method ReorderRule(env: Env, who: Option<string>, id: int, target: int, side: Side) returns (result: Result)
      requires Valid()
      modifies this
      ensures Valid() && Reply(State(), result) == Firewall.ReorderRule(env, old(State()), who, id, target, side)
    {
      hide LocksOut, WouldAllow, Rebuilt, OneBlockEach, DropPosition, CanReorder, SimulatedMove, Reached, Stops, Stuck;
      if !CanReorder(table, id, target) {
        return Rejected;
      }
      InTable(table, id, target);
      var row := table[id];
      var p := PlaceAmongSiblings(id, target, side);
      if row.rule.Input? {
        MoveDistinct(table, id, p);
        var refuse := CheckSelfLockout(env, who, SimulatedMove(table, id, p));
        if refuse {
          return Rejected;
        }
      }
      MoveRow(id, p);
      var broken := RebuildChains(Visited(env, ChainsFor(row.rule)), false);
      return if broken then Broken else Completed;
    }

    method MoveRow(id: int, p: real)
      requires Valid() && id in table
      modifies this`table
      ensures Valid() && table == old(table)[id := old(table)[id].(position := p)]
    {
      hide OneBlockEach;
      BlocksKept(table, table[id := table[id].(position := p)]);
      table := table[id := table[id].(position := p)];
    }

    /** The interpolated position of a drop. */
    method PlaceAmongSiblings(id: int, target: int, side: Side) returns (p: real)
      requires Keyed(table) && CanReorder(table, id, target)
      ensures p == DropPosition(table, id, target, side)
    {
      SiblingsFound(table, id, target);
      var siblings := SortRows(Siblings(table, id));
      var k := IndexOf(siblings, table[target]);
      p := Between(LeftOf(siblings, k, side), RightOf(siblings, k, side));
    }

    method FindBlock(name: string) returns (found: Option<int>)
      requires Valid()
      ensures found == BlockRow(table, name)
      ensures found.Some? ==> IsBlockOf(table, name, found.value)
    {
      if id :| id in table && IsBlockOf(table, name, id) {
        return Some(id);
      }
      return None;
    }

    /** set_client_block(blocked=True). */
    method BlockClient(env: Env, who: Option<string>, name: string, ip: string) returns (result: Result)
      requires Valid()
      modifies this
      ensures Valid() && Reply(State(), result) == Firewall.BlockClient(env, old(State()), who, name, ip)
    {
      hide Apply;
      var existing := FindBlock(name);
      if existing.Some? {
        return Completed;
      }
      if !env.hubMode && who == Some(ip) {
        return Rejected;
      }
      var overall := TopPosition(AllRows(table));
      var row := Row(nextId, ClientBlock(name, ip), "Block " + name, true, overall + 1.0);
      FirstBlock(table, row);
      table, nextId := table[nextId := row], nextId + 1;
      ApplyRow(row);
      return Completed;
    }

    /** set_client_block(blocked=False): the row goes only after both live rules went. */
    method UnblockClient(name: string) returns (result: Result)
      requires Valid()
      modifies this
      ensures Valid() && Reply(State(), result) == Firewall.UnblockClient(old(State()), name)
    {
      hide Unapply;
      var existing := FindBlock(name);
      if existing.None? {
        return Completed;
      }
      var ok, broken := UnapplyRow(table[existing.value]);
      if !ok {
        return Rejected;
      }
      BlocksKept(table, table - {existing.value});
      table := table - {existing.value};
      return Completed;
    }

    /** First half of a resync: every block rule is applied again; the chains of the other rows are noted. */
    method ReapplyRows(rows: seq<Row>) returns (touched: set<Chain>)
      modifies this`live
      ensures live == ReapplyBlocks(old(live), rows) && touched == ChainsBefore(rows, |rows|)
    {
      hide Apply, Unapply;
      touched := {};
      ghost var goal := ReapplyBlocks(live, rows);
      for i := 0 to |rows|
        invariant ReapplyBlocks(live, rows[i..]) == goal
        invariant touched == ChainsBefore(rows, i)
      {
        var row := rows[i];
        assert rows[i..][0] == row && rows[i..][1..] == rows[i + 1..];
        if row.rule.ClientBlock? {
          var gone, broken := UnapplyRow(row);
          ApplyRow(row);
        } else {
          touched := touched + ChainsFor(row.rule);
        }
      }
    }

    /** sync_all: block rules are applied again one by one, every used chain is rebuilt. */
    method SyncAll(env: Env) returns (result: Result)
      requires Valid()
      modifies this
      ensures Valid() && Reply(State(), result) == ResyncAll(env, old(State()))
    {
      hide ReapplyBlocks, Rebuilt, Reached, Stops;
      var rows := SortRows(EnabledRows(table));
      var touched := ReapplyRows(rows);
      AllChainsSeen(table, rows);
      var order := Visited(env, touched);
      assert Elements(order) == touched;
      var broken := RebuildChains(order, env.hubMode);
      return if broken && !env.hubMode then Broken else Completed;
    }

    /** discover_cli_rules: scan the four chains against the table read at the start, adopt what is not tracked, and
        rebuild every chain that gained a row.  `missing` are the enabled rows no listing showed. */
    method DiscoverCliRules(env: Env) returns (imported: nat, missing: set<int>, result: Result)
      requires Valid()
      modifies this
      ensures Valid() && Reply(State(), result) == DiscoverAll(env, old(State()))
      ensures imported == nextId - old(nextId)
      ensures missing == Missing(old(State()))
      ensures forall id :: id in missing
                <==> id in old(table) && old(table)[id].enabled && !old(table)[id].rule.ClientBlock?
                     && forall c, r :: r in old(live).At(c) ==> r.comment != Tracked(id)
    {
      hide Rebuilt, Scan, ScanRows, TouchedBy, OneBlockEach, Reached, Stops, Missing, SeenIds;
      SeenNone(State());
      ghost var start := State();
      var known := table;
      var touched, seen := {}, {};
      imported := 0;
      for n := 0 to 4
        invariant Valid() && (State(), touched) == Scanned(start, n)
        invariant imported == nextId - old(nextId)
        invariant seen == SeenIds(start, n)
      {
        SeesNext(start, n);
        SeenNext(start, n);
        seen := seen + (set r | r in live.At(TARGETS[n]) && r.comment.Tracked? :: r.comment.id);
        var more, gained := ScanChain(known, TARGETS[n]);
        touched := touched + gained;
        imported := imported + more;
      }
      var broken := RebuildChains(Visited(env, touched), false);
      missing := set id | id in known && known[id].enabled && !known[id].rule.ClientBlock? && id !in seen;
      MissingIs(start);
      MissingAre(start);
      result := if broken then Broken else Completed;
    }

    /** A rule is recorded as a row, and its original deleted. */
    method RecordRule(row: Row, spec: LiveRule, c: Chain)
      requires Valid() && row.id == nextId && !row.rule.ClientBlock?
      modifies this
      ensures Valid()
      ensures State() == Fw(old(table)[row.id := row], old(nextId) + 1, DeleteFrom(old(live), spec, c))
    {
      hide Without, OneBlockEach;
      BlocksKept(table, table[nextId := row]);
      table, nextId := table[nextId := row], nextId + 1;
      var ok := DeleteLive(spec, c);
    }

    /** One pass of the scanning loop: record each candidate, then delete the live original. */
    method ScanChain(known: Table, c: Chain) returns (imported: nat, touched: set<Chain>)
      requires Valid()
      modifies this
      ensures Valid() && State() == Scan(known, c, old(State()))
      ensures touched == TouchedBy(ScanRows(known, c, old(State())))
      ensures imported == nextId - old(nextId)
    {
      hide Filter, Without, PositionAt, Adopt, Candidate, OneBlockEach, PartlyScanned, Inserted, TouchedBy, AdoptedRows;
      ghost var start := State();
      var specs := live.At(c);
      var positions := PositionsForNewSpecs(AnchorsOf(known, specs));
      imported, touched := 0, {};
      ScanBegins(known, c, start);
      for i := 0 to |specs|
        invariant Valid() && State() == PartlyScanned(known, c, start, specs, i)
        invariant touched == TouchedBy(AdoptedRows(known, c, specs, i, start.nextId))
        invariant imported == |AdoptedRows(known, c, specs, i, start.nextId)|
      {
        ScanStep(known, c, start, specs, i);
        if Candidate(known, c, specs[i]) {
          CandidateFacts(known, c, specs, i);
          var row := Row(nextId, Adopt(c, specs[i]).value, AdoptedNote(specs[i].comment), true, positions[i].value);
          RecordRule(row, specs[i], c);
          imported, touched := imported + 1, touched + ChainsFor(row.rule);
        }
      }
      ScanEnds(known, c, start);
    }
  }

  lemma FrontEnds(rows: seq<Row>, k: nat, c: Chain)
    requires k <= |rows| && (forall m :: 0 <= m < k ==> CanPrint(rows[m].rule, c))
    requires k < |rows| ==> !CanPrint(rows[k].rule, c)
    ensures PrintableFront(rows, c) == rows[..k]
  {
  }

  lemma OneMoreRebuilt(t: Table, before: LiveChains, mid: LiveChains, order: seq<Chain>, i: nat)
    requires i < |order| && forall k, j :: 0 <= k < j < |order| ==> order[k] != order[j]
    requires mid == Rebuilt(t, before, Elements(order[..i]))
    ensures mid.Put(order[i], RebuiltChain(t, mid, order[i])) == Rebuilt(t, before, Elements(order[..i + 1]))
    ensures Stops(t, order[..i + 1]) <==> Stops(t, order[..i]) || Stuck(t, order[i])
  {
    hide Stuck, RebuiltChain;
    var done, more := Elements(order[..i]), Elements(order[..i + 1]);
    assert order[..i + 1] == order[..i] + [order[i]];
    assert more == done + {order[i]} && order[i] !in done;
    SameRebuild(t, before, mid, order[i]);
    hide Elements;
    PutIsRebuilt(t, before, mid, done, order[i]);
  }

  lemma PutIsRebuilt(t: Table, before: LiveChains, mid: LiveChains, done: set<Chain>, c: Chain)
    requires mid == Rebuilt(t, before, done) && RebuiltChain(t, mid, c) == RebuiltChain(t, before, c)
    ensures mid.Put(c, RebuiltChain(t, mid, c)) == Rebuilt(t, before, done + {c})
  {
    hide RebuiltChain;
    SameChains(mid.Put(c, RebuiltChain(t, mid, c)), Rebuilt(t, before, done + {c}));
  }

  lemma SameRebuild(t: Table, before: LiveChains, mid: LiveChains, c: Chain)
    requires mid.At(c) == before.At(c)
    ensures RebuiltChain(t, mid, c) == RebuiltChain(t, before, c)
  {
  }

  lemma {:induction false} NothingStops(t: Table, order: seq<Chain>)
    requires !Stops(t, order)
    ensures Reached(t, order) == Elements(order)
  {
    hide Stuck;
    if order != [] {
      assert order[0] in order;
      assert forall c :: c in order[1..] ==> c in order;
      NothingStops(t, order[1..]);
      assert order == [order[0]] + order[1..];
    }
  }

  /** The loop ends with the first chain that stops. */
  lemma {:induction false} ReachedTo(t: Table, order: seq<Chain>, i: nat)
    requires i < |order| && Stuck(t, order[i]) && !Stops(t, order[..i])
    ensures Reached(t, order) == Elements(order[..i + 1])
    ensures Stops(t, order)
  {
    hide Stuck;
    if i == 0 {
      assert Elements(order[..1]) == {order[0]};
    } else {
      assert order[0] in order[..i];
      assert order[1..][..i - 1] == order[..i][1..];
      ReachedTo(t, order[1..], i - 1);
      assert order[..i + 1] == [order[0]] + order[1..][..i];
    }
  }

  /** The ids of the plain tags that the listings of the first n chains show. */
  function SeenIds(fw: Fw, n: nat): set<int>
    requires n <= 4
  {
    if n == 0 then {}
    else SeenIds(fw, n - 1) + set r | r in fw.live.At(TARGETS[n - 1]) && r.comment.Tracked? :: r.comment.id
  }

  lemma SeenNone(fw: Fw)
    ensures SeenIds(fw, 0) == {}
  {
  }

  lemma SeenNext(fw: Fw, n: nat)
    requires n < 4
    ensures SeenIds(fw, n + 1)
         == SeenIds(fw, n) + set r | r in fw.live.At(TARGETS[n]) && r.comment.Tracked? :: r.comment.id
  {
  }

  lemma MissingIs(fw: Fw)
    ensures Missing(fw)
         == set id | id in fw.table && fw.table[id].enabled && !fw.table[id].rule.ClientBlock? && id !in SeenIds(fw, 4)
  {
    hide SeenIds;
    SeenMeansListed(fw);
    var unseen := set id | id in fw.table && fw.table[id].enabled && !fw.table[id].rule.ClientBlock?
      && id !in SeenIds(fw, 4);
    forall id
      ensures id in Missing(fw) <==> id in unseen
    {
      assert id in SeenIds(fw, 4) <==> IsListed(fw, id);
    }
  }

  /** A chain is listed before its scan, and the scans before it left it alone. */
  lemma SeesNext(fw: Fw, n: nat)
    requires n < 4
    ensures Scanned(fw, n).0.live.At(TARGETS[n]) == fw.live.At(TARGETS[n])
  {
    ScannedLive(fw, n, n);
  }

  lemma SeenMeansListed(fw: Fw)
    ensures forall id :: id in SeenIds(fw, 4) <==> IsListed(fw, id)
  {
    forall id
      ensures id in SeenIds(fw, 4) <==> IsListed(fw, id)
    {
      SeenIn(fw, 4, id);
      if c, r :| r in fw.live.At(c) && r.comment == Tracked(id) {
        assert TARGETS[IndexOf(TARGETS, c)] == c;
      }
    }
  }

  lemma {:induction false} SeenIn(fw: Fw, n: nat, id: int)
    requires n <= 4
    ensures id in SeenIds(fw, n)
            <==> exists k, r :: 0 <= k < n && r in fw.live.At(TARGETS[k]) && r.comment == Tracked(id)
  {
    if n > 0 {
      SeenIn(fw, n - 1, id);
    }
  }

  lemma MoveDistinct(t: Table, id: int, p: real)
    requires Keyed(t) && id in t
    ensures DistinctIds(SimulatedMove(t, id, p))
  {
  }

  lemma SiblingsFound(t: Table, id: int, target: int)
    requires Keyed(t) && CanReorder(t, id, target)
    ensures DistinctIds(Siblings(t, id)) && t[target] in Sorted(Siblings(t, id))
  {
    SortedIsAscending(Siblings(t, id));
    assert t[target] in Siblings(t, id);
    assert t[target] in Elements(Sorted(Siblings(t, id)));
  }

  function ChainsBefore(rows: seq<Row>, n: nat): set<Chain>
    requires n <= |rows|
  {
    set i, c | 0 <= i < n && c in ChainsFor(rows[i].rule) :: c
  }

  lemma AllChainsSeen(t: Table, rows: seq<Row>)
    requires Keyed(t) && rows == Sorted(EnabledRows(t))
    ensures ChainsBefore(rows, |rows|) == UsedChains(t)
  {
    SortedIsAscending(EnabledRows(t));
    forall r
      ensures r in rows <==> r in EnabledRows(t)
    {
      assert r in rows <==> r in Elements(rows);
    }
    forall c | c in UsedChains(t)
      ensures c in ChainsBefore(rows, |rows|)
    {
      var id :| id in t && t[id].enabled && c in ChainsFor(t[id].rule);
      assert t[id] in rows;
    }
    forall c | c in ChainsBefore(rows, |rows|)
      ensures c in UsedChains(t)
    {
      var i :| 0 <= i < |rows| && c in ChainsFor(rows[i].rule);
      assert rows[i] in rows;
    }
  }

  /** The state after the first i slots of a scan. */
  function PartlyScanned(known: Table, c: Chain, fw: Fw, specs: seq<LiveRule>, i: nat): Fw
    requires i <= |specs|
  {
    var rows := AdoptedRows(known, c, specs, i, fw.nextId);
    Fw(Inserted(fw.table, rows), fw.nextId + |rows|, fw.live.Put(c, Filter(Staying(known, c), specs[..i]) + specs[i..]))
  }

  lemma ScanBegins(known: Table, c: Chain, fw: Fw)
    ensures PartlyScanned(known, c, fw, fw.live.At(c), 0) == fw
    ensures AdoptedRows(known, c, fw.live.At(c), 0, fw.nextId) == [] && TouchedBy([]) == {}
  {
    var specs := fw.live.At(c);
    assert Filter(Staying(known, c), specs[..0]) + specs[0..] == specs;
    SameChains(fw.live.Put(c, specs), fw.live);
  }

  lemma ScanEnds(known: Table, c: Chain, fw: Fw)
    ensures PartlyScanned(known, c, fw, fw.live.At(c), |fw.live.At(c)|) == Scan(known, c, fw)
  {
    var specs := fw.live.At(c);
    assert specs[..|specs|] == specs;
    assert Filter(Staying(known, c), specs) + specs[|specs|..] == Filter(Staying(known, c), specs);
  }

  lemma CandidateFacts(known: Table, c: Chain, specs: seq<LiveRule>, i: nat)
    requires i < |specs| && Candidate(known, c, specs[i])
    ensures Adopt(c, specs[i]).Some? && !Adopt(c, specs[i]).value.ClientBlock? && !Known(known, specs[i])
  {
  }

  lemma LiveStep(known: Table, c: Chain, live: LiveChains, specs: seq<LiveRule>, i: nat)
    requires i < |specs|
    ensures var now := live.Put(c, Filter(Staying(known, c), specs[..i]) + specs[i..]);
            var next := live.Put(c, Filter(Staying(known, c), specs[..i + 1]) + specs[i + 1..]);
            if Candidate(known, c, specs[i]) then specs[i] in now.At(c) && next == DeleteFrom(now, specs[i], c)
            else next == now
  {
    hide Candidate, Without;
    var keep := Staying(known, c);
    var f := Filter(keep, specs[..i]);
    assert specs[..i + 1] == specs[..i] + [specs[i]];
    FilterConcat(keep, specs[..i], [specs[i]]);
    assert specs[i..] == [specs[i]] + specs[i + 1..];
    assert f + specs[i..] == f + [specs[i]] + specs[i + 1..];
    if Candidate(known, c, specs[i]) {
      FilterNone(keep, [specs[i]]);
      WithoutBehind(f, specs[i], specs[i + 1..]);
      assert f + [] == f;
      PutTwice(live, c, f + specs[i..], f + specs[i + 1..]);
    } else {
      FilterAll(keep, [specs[i]]);
    }
  }

  /** One slot of a scan: a candidate is recorded and its original, the first equal rule, is deleted. */
  lemma ScanStep(known: Table, c: Chain, fw: Fw, specs: seq<LiveRule>, i: nat)
    requires i < |specs|
    ensures var now, next := PartlyScanned(known, c, fw, specs, i), PartlyScanned(known, c, fw, specs, i + 1);
            var rows := AdoptedRows(known, c, specs, i, fw.nextId);
            if Candidate(known, c, specs[i]) then
              var row := AdoptedRow(known, c, specs, i, now.nextId);
              && AdoptedRows(known, c, specs, i + 1, fw.nextId) == rows + [row]
              && next.table == now.table[now.nextId := row] && next.nextId == now.nextId + 1
              && specs[i] in now.live.At(c) && next.live == DeleteFrom(now.live, specs[i], c)
              && TouchedBy(rows + [row]) == TouchedBy(rows) + ChainsFor(row.rule)
            else
              next == now && AdoptedRows(known, c, specs, i + 1, fw.nextId) == rows
  {
    hide AdoptedRow, AdoptedRows, Inserted, TouchedBy, Filter, Without, Candidate, Staying;
    LiveStep(known, c, fw.live, specs, i);
    AdoptedNext(known, c, specs, i, fw.nextId);
    var rows := AdoptedRows(known, c, specs, i, fw.nextId);
    if Candidate(known, c, specs[i]) {
      var row := AdoptedRow(known, c, specs, i, fw.nextId + |rows|);
      AdoptedHasId(known, c, specs, i, fw.nextId + |rows|);
      OneMoreRow(fw.table, rows, row);
    }
  }

  lemma AdoptedNext(known: Table, c: Chain, specs: seq<LiveRule>, i: nat, firstId: int)
    requires i < |specs|
    ensures var rows := AdoptedRows(known, c, specs, i, firstId);
            AdoptedRows(known, c, specs, i + 1, firstId)
            == if Candidate(known, c, specs[i]) then rows + [AdoptedRow(known, c, specs, i, firstId + |rows|)] else rows
  {
    hide AdoptedRow, Candidate;
  }

  lemma AdoptedHasId(known: Table, c: Chain, specs: seq<LiveRule>, i: nat, id: int)
    requires i < |specs| && Candidate(known, c, specs[i])
    ensures AdoptedRow(known, c, specs, i, id).id == id
  {
    hide Adopt, PositionAt;
  }

  lemma OneMoreRow(t: Table, rows: seq<Row>, row: Row)
    ensures Inserted(t, rows + [row]) == Inserted(t, rows)[row.id := row]
    ensures TouchedBy(rows + [row]) == TouchedBy(rows) + ChainsFor(row.rule)
  {
    assert (rows + [row])[..|rows|] == rows;
  }

  /** The listing after the first i rules have been looked at. */
  function PartlyCleared(specs: seq<LiveRule>, i: nat): seq<LiveRule>
    requires i <= |specs|
  {
    Filter(NotOwned, specs[..i]) + specs[i..]
  }

  lemma ClearStep(specs: seq<LiveRule>, i: nat)
    requires i < |specs|
    ensures if Owned(specs[i]) then
              specs[i] in PartlyCleared(specs, i)
                && Without(PartlyCleared(specs, i), specs[i]) == PartlyCleared(specs, i + 1)
            else PartlyCleared(specs, i) == PartlyCleared(specs, i + 1)
  {
    var f := Filter(NotOwned, specs[..i]);
    assert specs[..i + 1] == specs[..i] + [specs[i]];
    FilterConcat(NotOwned, specs[..i], [specs[i]]);
    assert specs[i..] == [specs[i]] + specs[i + 1..];
    assert f + specs[i..] == f + [specs[i]] + specs[i + 1..];
    if Owned(specs[i]) {
      WithoutBehind(f, specs[i], specs[i + 1..]);
      assert f + [] == f;
    }
  }

  lemma NoneCleared(live: LiveChains, c: Chain)
    ensures live == live.Put(c, PartlyCleared(live.At(c), 0))
  {
    assert [] + live.At(c) == live.At(c);
    SameChains(live, live.Put(c, PartlyCleared(live.At(c), 0)));
  }

  lemma AllCleared(specs: seq<LiveRule>)
    ensures PartlyCleared(specs, |specs|) == Filter(NotOwned, specs)
  {
    assert specs[..|specs|] == specs;
  }

  lemma PrintAllEmpty(c: Chain)
    ensures PrintAll([], c) == []
  {
  }

  lemma NoneAppended(live: LiveChains, c: Chain, rows: seq<Row>)
    ensures live == live.Put(c, live.At(c) + PrintAll(rows[..0], c))
  {
    PrintAllEmpty(c);
    assert live.At(c) + [] == live.At(c);
    SameChains(live, live.Put(c, live.At(c)));
  }

  lemma OneMoreAppended(before: LiveChains, kept: seq<LiveRule>, rows: seq<Row>, k: nat, c: Chain)
    requires k < |rows| && !rows[k].rule.ClientBlock?
    ensures AddTo(before.Put(c, kept + PrintAll(rows[..k], c)), rows[k], c)
         == before.Put(c, kept + PrintAll(rows[..k + 1], c))
  {
    hide Printed, PrintAll;
    PrintOneMore(kept, rows, k, c);
    PutTwice(before, c, kept + PrintAll(rows[..k], c), kept + PrintAll(rows[..k + 1], c));
  }

  lemma PrintOneMore(kept: seq<LiveRule>, rows: seq<Row>, k: nat, c: Chain)
    requires k < |rows|
    ensures kept + PrintAll(rows[..k], c) + [Printed(rows[k], c)] == kept + PrintAll(rows[..k + 1], c)
  {
    assert rows[..k + 1] == rows[..k] + [rows[k]];
    PrintAllConcat(rows[..k], [rows[k]], c);
    assert PrintAll([rows[k]], c) == [Printed(rows[k], c)];
  }

  ghost predicate PlainState(fw: Fw) {
    WellKept(fw) && fw.nextId >= 0 && (forall id :: id in fw.table ==> id >= 0) && OneBlockEach(fw.table)
  }

  lemma BlocksKept(t: Table, t': Table)
    requires OneBlockEach(t)
    requires forall id :: id in t' && t'[id].rule.ClientBlock? ==> id in t && t[id].rule == t'[id].rule
    ensures OneBlockEach(t')
  {
    forall name, i, j | IsBlockOf(t', name, i) && IsBlockOf(t', name, j)
      ensures i == j
    {
      assert IsBlockOf(t, name, i) && IsBlockOf(t, name, j);
    }
  }

  lemma FirstBlock(t: Table, row: Row)
    requires OneBlockEach(t) && row.rule.ClientBlock? && BlockRow(t, row.rule.clientName).None?
    ensures OneBlockEach(t[row.id := row])
  {
    var t' := t[row.id := row];
    forall name, i, j | IsBlockOf(t', name, i) && IsBlockOf(t', name, j)
      ensures i == j
    {
      assert i == row.id || IsBlockOf(t, name, i);
      assert j == row.id || IsBlockOf(t, name, j);
    }
  }

  lemma PutTwice(live: LiveChains, c: Chain, a: seq<LiveRule>, b: seq<LiveRule>)
    ensures live.Put(c, a).Put(c, b) == live.Put(c, b)
  {
  }

  lemma RowsAreUnblocked(t: Table, c: Chain, rows: seq<Row>)
    requires Keyed(t) && rows == Ordered(t, c)
    ensures forall k :: 0 <= k < |rows| ==> !rows[k].rule.ClientBlock?
  {
    OrderedFacts(t, c);
    assert forall k :: 0 <= k < |rows| ==> rows[k] in rows;
  }
}
