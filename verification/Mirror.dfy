/** Over every sequential run, the numerically tagged rules of each live chain are the enabled rows in order. */
module Mirror {
  import opened Wrappers
  import opened Sequences
  import opened Rules
  import opened Lockout
  import opened Discovery
  import opened Firewall

  /** The tagged part of a chain is exactly its enabled rows, printed, in (position, id) order. */
  ghost predicate ChainInSync(t: Table, live: LiveChains, c: Chain) {
    Filter(Owned, live.At(c)) == PrintAll(Ordered(t, c), c)
  }

  ghost predicate InSync(fw: Fw) {
    WellKept(fw) && forall c :: ChainInSync(fw.table, fw.live, c)
  }

  ghost predicate CompleteTable(t: Table) {
    forall id :: id in t ==> Complete(t[id].rule)
  }

  /** In sync, and every row of it can be printed. */
  ghost predicate Intact(fw: Fw) {
    InSync(fw) && CompleteTable(fw.table)
  }

  /** Rules the application did not write: neither a numeric tag nor a block tag. */
  predicate Foreign(r: LiveRule) {
    !Owned(r) && !r.comment.BlockTag?
  }

  // ---------- the chain order under changes of the table ----------

  lemma {:induction false} AscendingWithout(s: seq<Row>, x: Row)
    requires Ascending(s)
    ensures Ascending(Without(s, x))
    ensures forall y :: y in Without(s, x) <==> y in s && y != x
  {
    hide Ascending, Less;
    if s != [] {
      HeadBelow(s);
      if s[0] != x {
        AscendingWithout(s[1..], x);
        AscendingFrom(s[0], Without(s[1..], x));
      }
    }
  }

  /** The first row comes before all others, and is none of them. */
  lemma HeadBelow(s: seq<Row>)
    requires Ascending(s) && s != []
    ensures Ascending(s[1..]) && forall y :: y in s[1..] ==> Less(s[0], y) && y != s[0]
    ensures forall y :: y in s <==> y == s[0] || y in s[1..]
  {
    assert s == [s[0]] + s[1..];
    forall y | y in s[1..]
      ensures Less(s[0], y)
    {
      var k :| 0 <= k < |s[1..]| && s[1..][k] == y;
      assert s[k + 1] == y;
    }
  }

  lemma AscendingFrom(m: Row, rest: seq<Row>)
    requires Ascending(rest) && forall y :: y in rest ==> Less(m, y)
    ensures Ascending([m] + rest)
  {
    hide Less;
  }

  lemma OrderedAppend(t: Table, row: Row, c: Chain)
    requires Keyed(t) && row.id !in t && row.enabled
    requires forall id :: id in t ==> t[id].position < row.position
    ensures Ordered(t[row.id := row], c) == Ordered(t, c) + if c in ChainsFor(row.rule) then [row] else []
  {
    OrderedFacts(t, c);
    var s := Ordered(t, c) + if c in ChainsFor(row.rule) then [row] else [];
    OrderedIs(t[row.id := row], c, s);
  }

  /** Deleting or disabling a row takes it out of the chain order and moves nothing else. */
  lemma OrderedRemove(t: Table, t': Table, id: int, c: Chain)
    requires Keyed(t) && id in t
    requires t' == t - {id} || t' == t[id := t[id].(enabled := false)]
    ensures Ordered(t', c) == Without(Ordered(t, c), t[id])
  {
    OrderedFacts(t, c);
    AscendingWithout(Ordered(t, c), t[id]);
    OrderedIs(t', c, Without(Ordered(t, c), t[id]));
  }

  lemma OrderedElsewhere(t: Table, t': Table, id: int, c: Chain)
    requires Keyed(t) && Keyed(t')
    requires id in t' ==> c !in ChainsFor(t'[id].rule)
    requires id in t ==> c !in ChainsFor(t[id].rule)
    requires t - {id} == t' - {id}
    ensures Ordered(t', c) == Ordered(t, c)
  {
    forall k | k != id
      ensures (k in t <==> k in t') && (k in t ==> t[k] == t'[k])
    {
      assert k in t <==> k in t - {id};
      assert k in t' <==> k in t' - {id};
      if k in t { assert (t - {id})[k] == t[k]; assert (t' - {id})[k] == t'[k]; }
    }
    assert EnabledIn(t', c) == EnabledIn(t, c);
  }

  // ---------- printing ----------

  lemma PrintedOwned(row: Row, c: Chain)
    ensures Owned(Printed(row, c)) <==> !row.rule.ClientBlock?
  {
  }

  lemma PrintAllOwned(t: Table, c: Chain)
    requires Keyed(t)
    ensures forall r :: r in PrintAll(Ordered(t, c), c) ==> Owned(r)
  {
    hide Ordered, Printed, Ascending;
    OrderedFacts(t, c);
    var rows := Ordered(t, c);
    forall r | r in PrintAll(rows, c)
      ensures Owned(r)
    {
      var i :| 0 <= i < |rows| && PrintAll(rows, c)[i] == r;
      assert rows[i] in rows;
      PrintedOwned(rows[i], c);
    }
  }

  lemma {:induction false} PrintWithout(s: seq<Row>, x: Row, c: Chain)
    requires forall y :: y in s ==> y == x || y.id != x.id
    requires !x.rule.ClientBlock? && forall y :: y in s ==> !y.rule.ClientBlock?
    ensures PrintAll(Without(s, x), c) == Without(PrintAll(s, c), Printed(x, c))
  {
    if s != [] {
      PrintWithout(s[1..], x, c);
      assert PrintAll(s, c) == [Printed(s[0], c)] + PrintAll(s[1..], c);
      assert PrintAll(s, c)[1..] == PrintAll(s[1..], c);
      if s[0] != x {
        assert Printed(s[0], c) != Printed(x, c);
        PrintAllConcat([s[0]], Without(s[1..], x), c);
        assert PrintAll([s[0]], c) == [Printed(s[0], c)];
      }
    }
  }

  // ---------- commands ----------

  lemma ApplyEffect(live: LiveChains, row: Row, c: Chain)
    requires !row.rule.ClientBlock?
    ensures Apply(live, row).At(c) == live.At(c) + if c in ChainsFor(row.rule) then [Printed(row, c)] else []
  {
  }

  lemma ApplyBlockEffect(live: LiveChains, row: Row, c: Chain)
    requires row.rule.ClientBlock?
    ensures Apply(live, row).At(c) == (if c in {FORWARD, INPUT} then [Printed(row, c)] else []) + live.At(c)
  {
    hide Printed;
    assert Halves(row.rule) == [FORWARD, INPUT];
    assert Apply(live, row) == AddTo(AddTo(live, row, FORWARD), row, INPUT);
  }

  lemma UnapplyEffect(live: LiveChains, row: Row, c: Chain)
    requires !row.rule.ClientBlock? && Complete(row.rule)
    requires forall d :: d in ChainsFor(row.rule) ==> Printed(row, d) in live.At(d)
    ensures Unapply(live, row).1
    ensures Unapply(live, row).0.At(c)
            == if c in ChainsFor(row.rule) then Without(live.At(c), Printed(row, c)) else live.At(c)
  {
    hide Printed, DeleteFrom, Without;
    HalvesAreChains(row.rule);
    HalvesDiffer(row.rule);
    var h := Halves(row.rule);
    assert h[0] in h && (|h| > 1 ==> h[1] in h && h[0] != h[1]);
    DeletedAt(live, Printed(row, h[0]), h[0], c);
    if |h| > 1 {
      var first := DeleteFrom(live, Printed(row, h[0]), h[0]);
      DeletedAt(live, Printed(row, h[0]), h[0], h[1]);
      DeletedAt(first, Printed(row, h[1]), h[1], c);
    }
  }

  lemma HalvesAreChains(r: Rule)
    requires !r.ClientBlock?
    ensures forall d :: d in Halves(r) <==> d in ChainsFor(r)
  {
  }

  /** Taking a block rule out leaves tagged and foreign rules alone, whether or not it was there. */
  lemma UnapplyBlockEffect(live: LiveChains, row: Row, c: Chain)
    requires row.rule.ClientBlock?
    ensures Filter(Owned, Unapply(live, row).0.At(c)) == Filter(Owned, live.At(c))
    ensures Filter(Foreign, Unapply(live, row).0.At(c)) == Filter(Foreign, live.At(c))
  {
    UnapplyIs(live, row, c);
    PrintedOwned(row, c);
    FilterWithoutDropped(Owned, live.At(c), Printed(row, c));
    FilterWithoutDropped(Foreign, live.At(c), Printed(row, c));
  }

  /** Taking a row out leaves each chain as it is, or without that row's rule. */
  lemma UnapplyIs(live: LiveChains, row: Row, c: Chain)
    ensures Unapply(live, row).0.At(c) == live.At(c)
            || Unapply(live, row).0.At(c) == Without(live.At(c), Printed(row, c))
  {
    hide Printed, Deletable, DeleteFrom, Without;
    var h := Halves(row.rule);
    HalvesDiffer(row.rule);
    DeletedAt(live, Printed(row, h[0]), h[0], c);
    if |h| > 1 {
      assert h[0] != h[1];
      var first := DeleteFrom(live, Printed(row, h[0]), h[0]);
      DeletedAt(first, Printed(row, h[1]), h[1], c);
      assert h[1] == c ==> first.At(c) == live.At(c);
    }
  }

  lemma DeletedAt(live: LiveChains, r: LiveRule, d: Chain, c: Chain)
    ensures DeleteFrom(live, r, d).At(c) == if c == d then Without(live.At(c), r) else live.At(c)
  {
  }

  // ---------- rebuilds ----------

  /** A table of complete rows can be printed to the end, in whatever order its chains come. */
  lemma {:induction false} CompleteReaches(t: Table, order: seq<Chain>)
    requires Keyed(t) && CompleteTable(t)
    ensures forall c :: !Stuck(t, c)
    ensures Reached(t, order) == Elements(order) && !Stops(t, order)
  {
    forall c
      ensures !Stuck(t, c)
    {
      OrderedFacts(t, c);
      var rows := Ordered(t, c);
      var f := PrintableFront(rows, c);
      assert forall k :: 0 <= k < |rows| ==> rows[k] in rows && Complete(rows[k].rule);
    }
    hide Stuck, CompleteTable;
    if order != [] {
      CompleteReaches(t, order[1..]);
      assert order == [order[0]] + order[1..];
    }
  }

  lemma PrintsFront(all: seq<Row>, front: seq<Row>, c: Chain)
    requires front <= all
    ensures PrintAll(front, c) <= PrintAll(all, c) && (PrintAll(front, c) == PrintAll(all, c) <==> front == all)
    ensures forall r :: r in PrintAll(front, c) ==> r in PrintAll(all, c)
  {
    hide Printed;
    assert all == front + all[|front|..];
    PrintAllConcat(front, all[|front|..], c);
  }

  /** A rebuild puts its chain in sync if and only if it gets to the end; foreign rules keep their order either way. */
  lemma RebuiltInSync(t: Table, live: LiveChains, cs: set<Chain>, c: Chain)
    requires Keyed(t) && c in cs
    ensures ChainInSync(t, Rebuilt(t, live, cs), c) <==> !Stuck(t, c)
    ensures Filter(Foreign, Rebuilt(t, live, cs).At(c)) == Filter(Foreign, live.At(c))
  {
    hide Ordered, Filter, Printed, PrintableFront, PrintAll;
    PrintAllOwned(t, c);
    var rows := PrintableFront(Ordered(t, c), c);
    var kept, printed := Filter(NotOwned, live.At(c)), PrintAll(rows, c);
    PrintsFront(Ordered(t, c), rows, c);
    FilterConcat(Owned, kept, printed);
    FilterNone(Owned, kept);
    FilterAll(Owned, printed);
    FilterConcat(Foreign, kept, printed);
    FilterNone(Foreign, printed);
    FilterTwice(Foreign, NotOwned, Foreign, live.At(c));
  }

  /** An enabled row of a synced system is live in each of its chains. */
  lemma RowIsLive(fw: Fw, id: int, c: Chain)
    requires InSync(fw) && id in fw.table && fw.table[id].enabled && c in ChainsFor(fw.table[id].rule)
    ensures Printed(fw.table[id], c) in fw.live.At(c)
  {
    hide Printed;
    var row, s := fw.table[id], Ordered(fw.table, c);
    OrderedFacts(fw.table, c);
    assert ChainInSync(fw.table, fw.live, c);
    var i :| 0 <= i < |s| && s[i] == row;
    assert PrintAll(s, c)[i] == Printed(row, c);
    assert Printed(row, c) in Filter(Owned, fw.live.At(c));
  }

  /** Removing an enabled row from the table and from its chains stays in sync. */
  lemma RemoveRow(fw: Fw, t': Table, id: int, c: Chain)
    requires Intact(fw) && id in fw.table && fw.table[id].enabled && !fw.table[id].rule.ClientBlock?
    requires t' == fw.table - {id} || t' == fw.table[id := fw.table[id].(enabled := false)]
    ensures ChainInSync(t', Unapply(fw.live, fw.table[id]).0, c)
    ensures Filter(Foreign, Unapply(fw.live, fw.table[id]).0.At(c)) == Filter(Foreign, fw.live.At(c))
  {
    hide Printed, Unapply;
    var row := fw.table[id];
    forall d | d in ChainsFor(row.rule) { RowIsLive(fw, id, d); }
    UnapplyEffect(fw.live, row, c);
    RemoveOrdered(fw, t', id, c);
    PrintedOwned(row, c);
    if c in ChainsFor(row.rule) {
      FilterWithoutKept(Owned, fw.live.At(c), Printed(row, c));
      FilterWithoutDropped(Foreign, fw.live.At(c), Printed(row, c));
    }
  }

  lemma RemoveOrdered(fw: Fw, t': Table, id: int, c: Chain)
    requires InSync(fw) && id in fw.table && fw.table[id].enabled && !fw.table[id].rule.ClientBlock?
    requires t' == fw.table - {id} || t' == fw.table[id := fw.table[id].(enabled := false)]
    ensures PrintAll(Ordered(t', c), c)
         == if c in ChainsFor(fw.table[id].rule) then Without(Filter(Owned, fw.live.At(c)), Printed(fw.table[id], c))
            else Filter(Owned, fw.live.At(c))
  {
    hide Printed, PrintAll, Ordered, Filter, Without;
    var row := fw.table[id];
    OrderedFacts(fw.table, c);
    OrderedRemove(fw.table, t', id, c);
    assert ChainInSync(fw.table, fw.live, c);
    if c in ChainsFor(row.rule) {
      PrintWithout(Ordered(fw.table, c), row, c);
    }
  }

  lemma RemoveBlockRow(fw: Fw, t': Table, id: int, c: Chain)
    requires InSync(fw) && id in fw.table && fw.table[id].rule.ClientBlock?
    requires t' == fw.table - {id} || (exists b :: t' == fw.table[id := fw.table[id].(enabled := b)])
    ensures ChainInSync(t', fw.live, c)
    ensures ChainInSync(t', Unapply(fw.live, fw.table[id]).0, c)
    ensures Filter(Foreign, Unapply(fw.live, fw.table[id]).0.At(c)) == Filter(Foreign, fw.live.At(c))
  {
    assert ChainInSync(fw.table, fw.live, c);
    UnapplyBlockEffect(fw.live, fw.table[id], c);
    assert t' - {id} == fw.table - {id};
    OrderedElsewhere(fw.table, t', id, c);
  }

  /** Adding a block rule in front of a chain leaves tagged and foreign rules alone. */
  lemma BlockInFront(live: LiveChains, row: Row, c: Chain)
    requires row.rule.ClientBlock?
    ensures Filter(Owned, Apply(live, row).At(c)) == Filter(Owned, live.At(c))
    ensures Filter(Foreign, Apply(live, row).At(c)) == Filter(Foreign, live.At(c))
  {
    ApplyBlockEffect(live, row, c);
    var front := if c in {FORWARD, INPUT} then [Printed(row, c)] else [];
    FilterConcat(Owned, front, live.At(c));
    FilterConcat(Foreign, front, live.At(c));
  }

  lemma TaggedBehind(live: LiveChains, row: Row, c: Chain)
    requires !row.rule.ClientBlock?
    ensures Filter(Owned, Apply(live, row).At(c))
         == Filter(Owned, live.At(c)) + if c in ChainsFor(row.rule) then [Printed(row, c)] else []
    ensures Filter(Foreign, Apply(live, row).At(c)) == Filter(Foreign, live.At(c))
  {
    ApplyEffect(live, row, c);
    PrintedOwned(row, c);
    var tail := if c in ChainsFor(row.rule) then [Printed(row, c)] else [];
    FilterConcat(Owned, live.At(c), tail);
    FilterConcat(Foreign, live.At(c), tail);
    FilterAll(Owned, tail);
    FilterNone(Foreign, tail);
  }

  /** Appending agrees with sorting because a new row takes the overall maximum position plus one. */
  lemma AppendRow(fw: Fw, row: Row, c: Chain)
    requires InSync(fw) && row.id == fw.nextId && row.enabled
    requires row.position == MaxPosition(AllRows(fw.table)) + 1.0
    ensures ChainInSync(fw.table[row.id := row], Apply(fw.live, row), c)
    ensures Filter(Foreign, Apply(fw.live, row).At(c)) == Filter(Foreign, fw.live.At(c))
  {
    hide Apply, Printed, Ordered, MaxPosition, Filter, PrintAll;
    var t := fw.table[row.id := row];
    var tail := if c in ChainsFor(row.rule) then [row] else [];
    TopBehindAll(fw.table, row, c);
    assert ChainInSync(fw.table, fw.live, c);
    PrintAllConcat(Ordered(fw.table, c), tail, c);
    PrintAtMostOne(tail, c);
    if row.rule.ClientBlock? {
      BlockInFront(fw.live, row, c);
      assert tail == [] && Ordered(fw.table, c) + [] == Ordered(fw.table, c);
    } else {
      TaggedBehind(fw.live, row, c);
    }
  }

  /** A new row on top comes last in its chains. */
  lemma TopBehindAll(t: Table, row: Row, c: Chain)
    requires Keyed(t) && row.id !in t && row.enabled && row.position == MaxPosition(AllRows(t)) + 1.0
    ensures Ordered(t[row.id := row], c) == Ordered(t, c) + if c in ChainsFor(row.rule) then [row] else []
  {
    hide Ordered, MaxPosition;
    MaxPositionBounds(AllRows(t));
    assert forall id :: id in t ==> t[id] in AllRows(t);
    OrderedAppend(t, row, c);
  }

  lemma PrintAtMostOne(rows: seq<Row>, c: Chain)
    requires |rows| <= 1
    ensures PrintAll(rows, c) == if rows == [] then [] else [Printed(rows[0], c)]
  {
    hide Printed;
  }

  /** A change of one row followed by a rebuild of that row's chains stays in sync. */
  lemma ChangeAndRebuild(fw: Fw, row: Row, order: seq<Chain>, c: Chain)
    requires Intact(fw) && row.id in fw.table && fw.table[row.id].rule == row.rule && Lists(order, ChainsFor(row.rule))
    ensures var t' := fw.table[row.id := row];
            && CompleteTable(t')
            && ChainInSync(t', Rebuilt(t', fw.live, Reached(t', order)), c)
            && Filter(Foreign, Rebuilt(t', fw.live, Reached(t', order)).At(c)) == Filter(Foreign, fw.live.At(c))
  {
    hide Rebuilt, Reached;
    var t' := fw.table[row.id := row];
    CompleteReaches(t', order);
    assert Reached(t', order) == ChainsFor(row.rule);
    if c in ChainsFor(row.rule) {
      RebuiltInSync(t', fw.live, ChainsFor(row.rule), c);
    } else {
      assert ChainInSync(fw.table, fw.live, c);
      assert t' - {row.id} == fw.table - {row.id};
      OrderedElsewhere(fw.table, t', row.id, c);
    }
  }

  lemma {:induction false} ReapplyKeepsTagged(live: LiveChains, rows: seq<Row>, c: Chain)
    ensures Filter(Owned, ReapplyBlocks(live, rows).At(c)) == Filter(Owned, live.At(c))
    ensures Filter(Foreign, ReapplyBlocks(live, rows).At(c)) == Filter(Foreign, live.At(c))
    decreases |rows|
  {
    if rows != [] {
      if rows[0].rule.ClientBlock? {
        var out := Unapply(live, rows[0]).0;
        UnapplyBlockEffect(live, rows[0], c);
        BlockInFront(out, rows[0], c);
        ReapplyKeepsTagged(Apply(out, rows[0]), rows[1..], c);
      } else {
        ReapplyKeepsTagged(live, rows[1..], c);
      }
    }
  }

  /** From any table and any live state whatever, a resync leaves a chain in sync if and only if it rebuilt the chain to
      the end, or did not get to it and it was in sync before; foreign rules keep their order. */
  lemma ResyncExact(env: Env, fw: Fw, c: Chain)
    requires WellKept(fw)
    ensures var after := ResyncAll(env, fw).fw;
            && WellKept(after) && after.table == fw.table
            && (ChainInSync(fw.table, after.live, c) <==>
                  if c in ResyncReaches(env, fw.table) then !Stuck(fw.table, c) else ChainInSync(fw.table, fw.live, c))
            && Filter(Foreign, after.live.At(c)) == Filter(Foreign, fw.live.At(c))
  {
    hide Filter, Ordered, ResyncReaches, Stuck;
    var live := ReapplyBlocks(fw.live, Sorted(EnabledRows(fw.table)));
    ReapplyKeepsTagged(fw.live, Sorted(EnabledRows(fw.table)), c);
    if c in ResyncReaches(env, fw.table) {
      RebuiltInSync(fw.table, live, ResyncReaches(env, fw.table), c);
    }
  }

  /** When every row can be printed, a resync repairs a chain if and only if some enabled row targets it or it holds no
      tagged rule: a chain nobody targets keeps its orphans. */
  lemma ResyncRepairsIff(env: Env, fw: Fw, c: Chain)
    requires WellKept(fw) && CompleteTable(fw.table)
    ensures ChainInSync(fw.table, ResyncAll(env, fw).fw.live, c)
            <==> c in UsedChains(fw.table) || Filter(Owned, fw.live.At(c)) == []
  {
    hide Filter, Ordered, ResyncAll, Stuck, PrintAll, Reached, CompleteTable, UsedChains;
    ResyncExact(env, fw, c);
    var order := Visited(env, UsedChains(fw.table));
    CompleteReaches(fw.table, order);
    assert ResyncReaches(env, fw.table) == UsedChains(fw.table);
    if c !in UsedChains(fw.table) {
      UnusedIsEmpty(fw.table, c);
    }
  }

  lemma UnusedIsEmpty(t: Table, c: Chain)
    requires Keyed(t) && c !in UsedChains(t)
    ensures Ordered(t, c) == [] && PrintAll(Ordered(t, c), c) == []
  {
    assert EnabledIn(t, c) == {};
    assert Sorted({}) == [];
  }

  // ---------- discovery ----------

  /** Foreign rules that discovery leaves alone, whatever the table holds. */
  function Unadoptable(c: Chain): LiveRule -> bool {
    r => Foreign(r) && Adopt(c, r).None?
  }

  lemma {:induction false} InsertedFacts(t: Table, rows: seq<Row>, firstId: int)
    requires Keyed(t) && forall id :: id in t ==> id < firstId
    requires forall k :: 0 <= k < |rows| ==> rows[k].id == firstId + k
    ensures Keyed(Inserted(t, rows))
    ensures forall id :: id in Inserted(t, rows) <==> id in t || firstId <= id < firstId + |rows|
    ensures forall id :: id in t ==> Inserted(t, rows)[id] == t[id]
    ensures forall k :: 0 <= k < |rows| ==> Inserted(t, rows)[firstId + k] == rows[k]
  {
    if rows != [] {
      InsertedFacts(t, rows[..|rows| - 1], firstId);
    }
  }

  lemma {:induction false} TouchedFacts(rows: seq<Row>, c: Chain)
    ensures c in TouchedBy(rows) <==> exists k :: 0 <= k < |rows| && c in ChainsFor(rows[k].rule)
  {
    if rows != [] {
      var last := |rows| - 1;
      TouchedFacts(rows[..last], c);
      if c in TouchedBy(rows[..last]) {
        var k :| 0 <= k < last && c in ChainsFor(rows[..last][k].rule);
        assert c in ChainsFor(rows[k].rule);
      }
    }
  }

  lemma RowsTouch(rows: seq<Row>, c: Chain)
    requires forall k :: 0 <= k < |rows| ==> c in ChainsFor(rows[k].rule)
    ensures rows != [] ==> c in TouchedBy(rows)
  {
  }

  lemma {:induction false} NoRowsNoCandidates(t: Table, c: Chain, specs: seq<LiveRule>, n: nat, firstId: int)
    requires n <= |specs|
    ensures AdoptedRows(t, c, specs, n, firstId) == [] <==> forall i :: 0 <= i < n ==> !Candidate(t, c, specs[i])
  {
    if n > 0 {
      NoRowsNoCandidates(t, c, specs, n - 1, firstId);
    }
  }

  /** A scan disturbs only the chains it reports as touched. */
  lemma ScanEffect(t0: Table, c: Chain, fw: Fw, d: Chain)
    requires WellKept(fw)
    ensures WellKept(Scan(t0, c, fw))
    ensures d !in TouchedBy(ScanRows(t0, c, fw)) ==>
              Ordered(Scan(t0, c, fw).table, d) == Ordered(fw.table, d) && Scan(t0, c, fw).live.At(d) == fw.live.At(d)
  {
    hide AdoptedRows, Inserted, TouchedBy, ChainsFor, Candidate;
    var rows, specs := ScanRows(t0, c, fw), fw.live.At(c);
    InsertedFacts(fw.table, rows, fw.nextId);
    TouchedFacts(rows, d);
    if d !in TouchedBy(rows) {
      SameEnabled(fw.table, rows, fw.nextId, d);
      if d == c {
        RowsTouch(rows, c);
        NoRowsNoCandidates(t0, c, specs, |specs|, fw.nextId);
        FilterAll(Staying(t0, c), specs);
      }
    }
  }

  lemma SameEnabled(t: Table, rows: seq<Row>, firstId: int, c: Chain)
    requires Keyed(t) && forall id :: id in t ==> id < firstId
    requires forall k :: 0 <= k < |rows| ==> rows[k].id == firstId + k && c !in ChainsFor(rows[k].rule)
    ensures EnabledIn(Inserted(t, rows), c) == EnabledIn(t, c)
  {
    hide Inserted, ChainsFor;
    InsertedFacts(t, rows, firstId);
    var t' := Inserted(t, rows);
    forall id
      ensures id in t' && t'[id].enabled && c in ChainsFor(t'[id].rule)
         <==> id in t && t[id].enabled && c in ChainsFor(t[id].rule)
    {
      if id in t' && id !in t {
        assert t'[firstId + (id - firstId)] == rows[id - firstId];
      }
    }
  }

  ghost predicate Covered(t: Table, live: LiveChains, touched: set<Chain>, c: Chain) {
    c in touched || ChainInSync(t, live, c)
  }

  lemma {:induction false} ScannedCovered(fw: Fw, n: nat)
    requires InSync(fw) && n <= 4
    ensures WellKept(Scanned(fw, n).0)
    ensures forall c :: Covered(Scanned(fw, n).0.table, Scanned(fw, n).0.live, Scanned(fw, n).1, c)
  {
    if n > 0 {
      ScannedCovered(fw, n - 1);
      var (before, touched) := Scanned(fw, n - 1);
      ScanEffect(fw.table, TARGETS[n - 1], before, TARGETS[n - 1]);
      forall c
        ensures Covered(Scanned(fw, n).0.table, Scanned(fw, n).0.live, Scanned(fw, n).1, c)
      {
        assert Covered(before.table, before.live, touched, c);
        ScanEffect(fw.table, TARGETS[n - 1], before, c);
      }
    }
  }

  /** After the first n scans: which live rules each chain still holds. */
  lemma {:induction false} ScannedLive(fw: Fw, n: nat, k: nat)
    requires n <= 4 && k < 4
    ensures Scanned(fw, n).0.live.At(TARGETS[k])
         == if k < n then Filter(Staying(fw.table, TARGETS[k]), fw.live.At(TARGETS[k])) else fw.live.At(TARGETS[k])
  {
    hide AdoptedRows, Inserted, TouchedBy, Filter, Staying;
    if n > 0 {
      ScannedLive(fw, n - 1, k);
      assert k != n - 1 ==> TARGETS[k] != TARGETS[n - 1];
    }
  }

  lemma DiscoveredLive(fw: Fw, c: Chain)
    ensures Scanned(fw, 4).0.live.At(c) == Filter(Staying(fw.table, c), fw.live.At(c))
  {
    var k := IndexOf(TARGETS, c);
    ScannedLive(fw, 4, k);
  }

  /** A listed port forward without a port: discovery adopts it as a row that cannot be printed. */
  predicate PortlessCandidate(t: Table, r: LiveRule) {
    Candidate(t, PREROUTING, r) && r.dport.None?
  }

  ghost predicate Portless(fw: Fw) {
    exists r :: r in fw.live.At(PREROUTING) && PortlessCandidate(fw.table, r)
  }

  lemma {:induction false} AdoptedComplete(t: Table, c: Chain, specs: seq<LiveRule>, n: nat, firstId: int)
    requires n <= |specs|
    ensures (forall i :: 0 <= i < n && c == PREROUTING ==> !PortlessCandidate(t, specs[i]))
            <==> forall row :: row in AdoptedRows(t, c, specs, n, firstId) ==> Complete(row.rule)
  {
    hide AdoptedRow, AdoptedRows, Complete, PortlessCandidate, Candidate;
    AdoptedNext(t, c, specs, n, firstId);
    if n > 0 {
      AdoptedComplete(t, c, specs, n - 1, firstId);
      if Candidate(t, c, specs[n - 1]) {
        var id := firstId + |AdoptedRows(t, c, specs, n - 1, firstId)|;
        CompleteUnlessPortless(t, c, specs, n - 1, id);
      } else {
        NoCandidateNotPortless(t, c, specs[n - 1]);
      }
    }
  }

  /** The rows of one slot more. */
  lemma AdoptedNext(t: Table, c: Chain, specs: seq<LiveRule>, n: nat, firstId: int)
    requires n <= |specs|
    ensures n == 0 ==> AdoptedRows(t, c, specs, n, firstId) == []
    ensures n > 0 ==>
              var before := AdoptedRows(t, c, specs, n - 1, firstId);
              forall x :: x in AdoptedRows(t, c, specs, n, firstId)
                <==> x in before || (Candidate(t, c, specs[n - 1])
                                     && x == AdoptedRow(t, c, specs, n - 1, firstId + |before|))
  {
    hide Candidate, AdoptedRow;
  }

  lemma NoCandidateNotPortless(t: Table, c: Chain, r: LiveRule)
    requires !Candidate(t, c, r)
    ensures c == PREROUTING ==> !PortlessCandidate(t, r)
  {
  }

  lemma CompleteUnlessPortless(t: Table, c: Chain, specs: seq<LiveRule>, i: nat, id: int)
    requires i < |specs| && Candidate(t, c, specs[i])
    ensures Complete(AdoptedRow(t, c, specs, i, id).rule) <==> !(c == PREROUTING && PortlessCandidate(t, specs[i]))
    ensures AdoptedRow(t, c, specs, i, id).id == id
  {
    hide PositionAt;
  }

  lemma InsertedComplete(t: Table, rows: seq<Row>, firstId: int)
    requires Keyed(t) && forall id :: id in t ==> id < firstId
    requires forall k :: 0 <= k < |rows| ==> rows[k].id == firstId + k
    ensures CompleteTable(Inserted(t, rows)) <==> CompleteTable(t) && forall row :: row in rows ==> Complete(row.rule)
  {
    InsertedFacts(t, rows, firstId);
    hide Complete;
    var t' := Inserted(t, rows);
    if CompleteTable(t') {
      forall row | row in rows
        ensures Complete(row.rule)
      {
        var k :| 0 <= k < |rows| && rows[k] == row;
        assert t'[firstId + k] == row;
      }
      forall id | id in t
        ensures Complete(t[id].rule)
      {
        assert t'[id] == t[id];
      }
    }
    if CompleteTable(t) && forall row :: row in rows ==> Complete(row.rule) {
      forall id | id in t'
        ensures Complete(t'[id].rule)
      {
        if id !in t { assert t'[firstId + (id - firstId)] == rows[id - firstId] && rows[id - firstId] in rows; }
      }
    }
  }

  lemma {:induction false} ScannedComplete(fw: Fw, n: nat)
    requires WellKept(fw) && CompleteTable(fw.table) && n <= 4
    ensures WellKept(Scanned(fw, n).0)
    ensures CompleteTable(Scanned(fw, n).0.table) <==> n < 3 || !Portless(fw)
  {
    if n > 0 {
      hide AdoptedRows, Inserted, TouchedBy, Candidate, CompleteTable, Complete;
      ScannedComplete(fw, n - 1);
      var c, before := TARGETS[n - 1], Scanned(fw, n - 1).0;
      ScanEffect(fw.table, c, before, c);
      ScannedLive(fw, n - 1, n - 1);
      InsertedComplete(before.table, ScanRows(fw.table, c, before), before.nextId);
      AdoptedComplete(fw.table, c, before.live.At(c), |before.live.At(c)|, before.nextId);
      if n == 3 { PortlessAt(fw); }
      assert TARGETS[n - 1] == PREROUTING <==> n == 3;
    }
  }

  lemma PortlessAt(fw: Fw)
    ensures Portless(fw)
            <==> exists i :: 0 <= i < |fw.live.At(PREROUTING)|
                              && PortlessCandidate(fw.table, fw.live.At(PREROUTING)[i])
  {
    if r :| r in fw.live.At(PREROUTING) && PortlessCandidate(fw.table, r) {
      var i :| 0 <= i < |fw.live.At(PREROUTING)| && fw.live.At(PREROUTING)[i] == r;
    }
  }

  /** Whatever the rebuilds come to, the foreign rules that stay are those no scan takes. */
  lemma DiscoveryKeepsForeign(env: Env, fw: Fw, c: Chain)
    requires WellKept(fw)
    ensures WellKept(Discovered(env, fw))
    ensures Filter(Foreign, Discovered(env, fw).live.At(c)) == Filter(Unadoptable(c), fw.live.At(c))
  {
    hide Filter, Scanned, Reached, RebuiltChain;
    ScansKeepWell(fw, 4);
    var (after, touched) := Scanned(fw, 4);
    var reached := Reached(after.table, Visited(env, touched));
    if c in reached {
      RebuiltInSync(after.table, after.live, reached, c);
    }
    DiscoveredLive(fw, c);
    FilterTwice(Foreign, Staying(fw.table, c), Unadoptable(c), fw.live.At(c));
  }

  lemma {:induction false} ScansKeepWell(fw: Fw, n: nat)
    requires WellKept(fw) && n <= 4
    ensures WellKept(Scanned(fw, n).0)
  {
    if n > 0 {
      ScansKeepWell(fw, n - 1);
      ScanEffect(fw.table, TARGETS[n - 1], Scanned(fw, n - 1).0, FORWARD);
    }
  }

  lemma DiscoveryKeepsSync(env: Env, fw: Fw, c: Chain)
    requires Intact(fw) && !Portless(fw)
    ensures ChainInSync(Discovered(env, fw).table, Discovered(env, fw).live, c)
  {
    hide Filter, Ordered, RebuiltChain;
    ScannedCovered(fw, 4);
    ScannedComplete(fw, 4);
    var (after, touched) := Scanned(fw, 4);
    var order := Visited(env, touched);
    CompleteReaches(after.table, order);
    assert Reached(after.table, order) == touched;
    assert Covered(after.table, after.live, touched, c);
    if c in touched {
      RebuiltInSync(after.table, after.live, touched, c);
    }
  }

  /** What discovery may add: rows in force that lack the second port only with the first. */
  predicate Adopted(row: Row) {
    row.enabled && !row.rule.ClientBlock?
    && (row.rule.PortForward? && row.rule.extPort.Some? ==> row.rule.targetPort.Some?)
  }

  lemma {:induction false} AdoptedRowsAre(t: Table, c: Chain, specs: seq<LiveRule>, n: nat, firstId: int)
    requires n <= |specs|
    ensures forall row :: row in AdoptedRows(t, c, specs, n, firstId) ==> Adopted(row)
  {
    hide PositionAt;
    if n > 0 {
      AdoptedRowsAre(t, c, specs, n - 1, firstId);
    }
  }

  /** The rows that the first n scans record, in the order of their ids. */
  function NewRows(fw: Fw, n: nat): seq<Row>
    requires n <= 4
  {
    if n == 0 then [] else NewRows(fw, n - 1) + ScanRows(fw.table, TARGETS[n - 1], Scanned(fw, n - 1).0)
  }

  lemma {:induction false} InsertedTwice(t: Table, a: seq<Row>, b: seq<Row>)
    ensures Inserted(Inserted(t, a), b) == Inserted(t, a + b)
  {
    if b == [] {
      assert a + b == a;
    } else {
      var last := |b| - 1;
      InsertedTwice(t, a, b[..last]);
      assert (a + b)[..|a + b| - 1] == a + b[..last];
    }
  }

  /** The scans insert these rows and do nothing else to the table. */
  lemma {:induction false} ScannedTable(fw: Fw, n: nat)
    requires n <= 4
    ensures Scanned(fw, n).0.table == Inserted(fw.table, NewRows(fw, n))
    ensures Scanned(fw, n).0.nextId == fw.nextId + |NewRows(fw, n)|
    ensures forall k :: 0 <= k < |NewRows(fw, n)| ==> NewRows(fw, n)[k].id == fw.nextId + k
    ensures forall row :: row in NewRows(fw, n) ==> Adopted(row)
  {
    hide AdoptedRows, Inserted, TouchedBy, Adopted, Filter, Staying;
    if n == 0 {
      assert Inserted(fw.table, []) == fw.table by { NothingInserted(fw.table); }
    } else {
      ScannedTable(fw, n - 1);
      var c, before := TARGETS[n - 1], Scanned(fw, n - 1).0;
      AdoptedRowsAre(fw.table, c, before.live.At(c), |before.live.At(c)|, before.nextId);
      InsertedTwice(fw.table, NewRows(fw, n - 1), ScanRows(fw.table, c, before));
    }
  }

  lemma NothingInserted(t: Table)
    ensures Inserted(t, []) == t
  {
  }

  /** Rows that were there stay as they are; the others are adopted ones with new ids. */
  lemma ScannedNew(fw: Fw, n: nat)
    requires WellKept(fw) && n <= 4
    ensures forall id :: id in Scanned(fw, n).0.table ==>
              (id in fw.table && Scanned(fw, n).0.table[id] == fw.table[id])
              || (id !in fw.table && id >= fw.nextId && Adopted(Scanned(fw, n).0.table[id]))
    ensures forall id :: id in fw.table ==> id in Scanned(fw, n).0.table
    ensures Scanned(fw, n).0.nextId >= fw.nextId
  {
    hide Scanned, NewRows, Inserted, Adopted;
    ScannedTable(fw, n);
    var rows := NewRows(fw, n);
    InsertedFacts(fw.table, rows, fw.nextId);
    forall id | id in Inserted(fw.table, rows) && id !in fw.table
      ensures id >= fw.nextId && Adopted(Inserted(fw.table, rows)[id])
    {
      assert Inserted(fw.table, rows)[fw.nextId + (id - fw.nextId)] == rows[id - fw.nextId];
      assert rows[id - fw.nextId] in rows;
    }
  }

  lemma PortlessRow(fw: Fw) returns (id: int)
    requires WellKept(fw) && CompleteTable(fw.table) && Portless(fw)
    ensures var t' := Scanned(fw, 4).0.table;
            && id in t' && id !in fw.table && t'[id].enabled && PREROUTING in ChainsFor(t'[id].rule)
            && !CanPrint(t'[id].rule, PREROUTING)
  {
    hide Scanned;
    ScannedComplete(fw, 4);
    ScannedNew(fw, 4);
    var t' := Scanned(fw, 4).0.table;
    id :| id in t' && !Complete(t'[id].rule);
  }

  lemma StuckAt(t: Table, id: int, c: Chain)
    requires Keyed(t) && id in t && t[id].enabled && c in ChainsFor(t[id].rule) && !CanPrint(t[id].rule, c)
    ensures Stuck(t, c)
  {
    hide Ordered;
    OrderedFacts(t, c);
    assert t[id] in Ordered(t, c);
    var k :| 0 <= k < |Ordered(t, c)| && Ordered(t, c)[k] == t[id];
  }

  /** A chain whose rebuild was not reached does not show a new row. */
  lemma NewRowIsNotShown(fw: Fw, t': Table, chain: seq<LiveRule>, id: int, c: Chain)
    requires InSync(fw) && Keyed(t') && forall r :: r in chain ==> r in fw.live.At(c)
    requires id in t' && id !in fw.table && t'[id].enabled && c in ChainsFor(t'[id].rule)
    ensures Filter(Owned, chain) != PrintAll(Ordered(t', c), c)
  {
    hide Ordered, Printed, PrintAll;
    RowIsShown(t', id, c);
    var r := Printed(t'[id], c);
    PrintedTag(t'[id], c);
    if Filter(Owned, chain) == PrintAll(Ordered(t', c), c) {
      assert r in Filter(Owned, chain);
      assert ChainInSync(fw.table, fw.live, c);
      assert r in PrintAll(Ordered(fw.table, c), c);
      ShownIsRow(fw.table, c, r);
    }
  }

  lemma RowIsShown(t: Table, id: int, c: Chain)
    requires Keyed(t) && id in t && t[id].enabled && c in ChainsFor(t[id].rule)
    ensures Printed(t[id], c) in PrintAll(Ordered(t, c), c) && !t[id].rule.ClientBlock? && t[id].id == id
  {
    hide Ordered, Printed;
    OrderedFacts(t, c);
    var rows := Ordered(t, c);
    var k :| 0 <= k < |rows| && rows[k] == t[id];
    assert PrintAll(rows, c)[k] == Printed(t[id], c);
  }

  lemma ShownIsRow(t: Table, c: Chain, r: LiveRule)
    requires Keyed(t) && r in PrintAll(Ordered(t, c), c)
    ensures r.comment.Tracked? && r.comment.id in t && t[r.comment.id] in Ordered(t, c)
            && r == Printed(t[r.comment.id], c)
  {
    hide Ordered, Printed, Ascending;
    OrderedFacts(t, c);
    var rows := Ordered(t, c);
    var k :| 0 <= k < |rows| && PrintAll(rows, c)[k] == r;
    assert rows[k] in rows && PrintAll(rows, c)[k] == Printed(rows[k], c);
    PrintedTag(rows[k], c);
  }

  /** A row that cannot be printed is never live, so its chain shows fewer tagged rules than it has rows. */
  lemma PortlessBreaks(env: Env, fw: Fw)
    requires Intact(fw) && Portless(fw)
    ensures !ChainInSync(Discovered(env, fw).table, Discovered(env, fw).live, PREROUTING)
  {
    hide Filter, Scanned, PrintAll, RebuiltChain, CompleteTable, Ordered;
    var (after, touched) := Scanned(fw, 4);
    var t', reached := after.table, Reached(after.table, Visited(env, touched));
    ScansKeepWell(fw, 4);
    var id := PortlessRow(fw);
    StuckAt(t', id, PREROUTING);
    if PREROUTING in reached {
      RebuiltInSync(t', after.live, reached, PREROUTING);
    } else {
      DiscoveredLive(fw, PREROUTING);
      NewRowIsNotShown(fw, t', after.live.At(PREROUTING), id, PREROUTING);
    }
  }

  /** Discovery keeps the mirror if and only if PREROUTING lists no adoptable port forward without a port. */
  lemma DiscoveryKeepsMirror(env: Env, fw: Fw)
    requires Intact(fw)
    ensures InSync(Discovered(env, fw)) <==> !Portless(fw)
    ensures Intact(Discovered(env, fw)) <==> !Portless(fw)
    ensures forall c :: Filter(Foreign, Discovered(env, fw).live.At(c)) == Filter(Unadoptable(c), fw.live.At(c))
  {
    hide Filter, Foreign, Unadoptable, Scanned, CompleteTable, ChainInSync, Portless;
    forall c { DiscoveryKeepsForeign(env, fw, c); }
    DiscoveryKeepsForeign(env, fw, FORWARD);
    ScannedComplete(fw, 4);
    assert Discovered(env, fw).table == Scanned(fw, 4).0.table;
    if Portless(fw) {
      PortlessBreaks(env, fw);
    } else {
      forall c { DiscoveryKeepsSync(env, fw, c); }
    }
  }

  // ---------- every operation, every run ----------

  /** The foreign rules a chain keeps over one call. */
  function KeptBy(op: Op, c: Chain): LiveRule -> bool {
    if op.Discover? then Unadoptable(c) else Foreign
  }

  lemma AddKeepsMirror(env: Env, fw: Fw, who: Option<string>, r: Rule, note: string)
    requires Intact(fw)
    ensures Intact(AddRule(env, fw, who, r, note).fw)
    ensures forall c :: Filter(Foreign, AddRule(env, fw, who, r, note).fw.live.At(c)) == Filter(Foreign, fw.live.At(c))
  {
    hide Apply, LocksOut, MaxPosition, UnrestrictedDrop, Filter, PrintAll, Ordered;
    var after := AddRule(env, fw, who, r, note).fw;
    forall c
      ensures ChainInSync(after.table, after.live, c)
      ensures Filter(Foreign, after.live.At(c)) == Filter(Foreign, fw.live.At(c))
    {
      assert ChainInSync(fw.table, fw.live, c);
      if after != fw {
        AppendRow(fw, after.table[fw.nextId], c);
      }
    }
  }

  lemma DisableKeepsMirror(env: Env, fw: Fw, who: Option<string>, id: int)
    requires Intact(fw)
    ensures Intact(DisableRule(env, fw, who, id).fw)
    ensures forall c :: Filter(Foreign, DisableRule(env, fw, who, id).fw.live.At(c)) == Filter(Foreign, fw.live.At(c))
  {
    hide Unapply, LocksOut, Filter, PrintAll, Ordered;
    var after := DisableRule(env, fw, who, id).fw;
    forall c
      ensures ChainInSync(after.table, after.live, c)
      ensures Filter(Foreign, after.live.At(c)) == Filter(Foreign, fw.live.At(c))
    {
      assert ChainInSync(fw.table, fw.live, c);
      if after != fw {
        if fw.table[id].rule.ClientBlock? {
          RemoveBlockRow(fw, after.table, id, c);
        } else {
          RemoveRow(fw, after.table, id, c);
        }
      }
    }
  }

  lemma DeleteKeepsMirror(env: Env, fw: Fw, who: Option<string>, id: int)
    requires Intact(fw)
    ensures Intact(DeleteRule(env, fw, who, id).fw)
    ensures forall c :: Filter(Foreign, DeleteRule(env, fw, who, id).fw.live.At(c)) == Filter(Foreign, fw.live.At(c))
  {
    hide Unapply, LocksOut, Filter, PrintAll, Ordered;
    var after := DeleteRule(env, fw, who, id).fw;
    forall c
      ensures ChainInSync(after.table, after.live, c)
      ensures Filter(Foreign, after.live.At(c)) == Filter(Foreign, fw.live.At(c))
    {
      assert ChainInSync(fw.table, fw.live, c);
      if id in fw.table && after != fw {
        if fw.table[id].rule.ClientBlock? {
          RemoveBlockRow(fw, after.table, id, c);
        } else if fw.table[id].enabled {
          RemoveRow(fw, after.table, id, c);
        } else {
          OrderedFacts(fw.table, c);
          OrderedRemove(fw.table, after.table, id, c);
        }
      }
    }
  }

  lemma ToggleKeepsMirror(env: Env, fw: Fw, who: Option<string>, id: int)
    requires Intact(fw)
    ensures Intact(ToggleRule(env, fw, who, id).fw)
    ensures forall c :: Filter(Foreign, ToggleRule(env, fw, who, id).fw.live.At(c)) == Filter(Foreign, fw.live.At(c))
  {
    hide DisableRule, EnableRule, Filter;
    if id in fw.table {
      if fw.table[id].enabled {
        DisableKeepsMirror(env, fw, who, id);
      } else {
        EnableKeepsMirror(env, fw, who, id);
      }
    }
  }

  lemma EnableKeepsMirror(env: Env, fw: Fw, who: Option<string>, id: int)
    requires Intact(fw) && id in fw.table
    ensures Intact(EnableRule(env, fw, who, id).fw)
    ensures forall c :: Filter(Foreign, EnableRule(env, fw, who, id).fw.live.At(c)) == Filter(Foreign, fw.live.At(c))
  {
    hide Filter, Rebuilt, Reached, Apply, LocksOut, UnrestrictedDrop, Stops;
    var after, row := EnableRule(env, fw, who, id).fw, fw.table[id].(enabled := true);
    forall c
      ensures ChainInSync(after.table, after.live, c)
      ensures Filter(Foreign, after.live.At(c)) == Filter(Foreign, fw.live.At(c))
    {
      assert ChainInSync(fw.table, fw.live, c);
      if row.rule.ClientBlock? {
        EnableBlock(fw, row, c);
      } else {
        ChangeAndRebuild(fw, row, Halves(row.rule), c);
      }
    }
  }

  lemma EnableBlock(fw: Fw, row: Row, c: Chain)
    requires InSync(fw) && row.id in fw.table && row.rule.ClientBlock?
    requires row == fw.table[row.id].(enabled := true)
    ensures ChainInSync(fw.table[row.id := row], Apply(fw.live, row), c)
    ensures Filter(Foreign, Apply(fw.live, row).At(c)) == Filter(Foreign, fw.live.At(c))
  {
    RemoveBlockRow(fw, fw.table[row.id := row], row.id, c);
    BlockInFront(fw.live, row, c);
  }

  lemma ReorderKeepsMirror(env: Env, fw: Fw, who: Option<string>, id: int, target: int, side: Side)
    requires Intact(fw)
    ensures Intact(ReorderRule(env, fw, who, id, target, side).fw)
    ensures forall c ::
              Filter(Foreign, ReorderRule(env, fw, who, id, target, side).fw.live.At(c))
              == Filter(Foreign, fw.live.At(c))
  {
    hide Rebuilt, DropPosition, LocksOut, Filter, Reached, Stops, SimulatedMove;
    var after := ReorderRule(env, fw, who, id, target, side).fw;
    forall c
      ensures ChainInSync(after.table, after.live, c)
      ensures Filter(Foreign, after.live.At(c)) == Filter(Foreign, fw.live.At(c))
    {
      assert ChainInSync(fw.table, fw.live, c);
      if after != fw {
        ChangeAndRebuild(fw, after.table[id], Visited(env, ChainsFor(fw.table[id].rule)), c);
      }
    }
  }

  lemma BlockKeepsMirror(env: Env, fw: Fw, who: Option<string>, name: string, ip: string)
    requires Intact(fw)
    ensures Intact(BlockClient(env, fw, who, name, ip).fw)
    ensures forall c ::
              Filter(Foreign, BlockClient(env, fw, who, name, ip).fw.live.At(c))
              == Filter(Foreign, fw.live.At(c))
  {
    hide Apply, MaxPosition, Filter, PrintAll;
    var after := BlockClient(env, fw, who, name, ip).fw;
    forall c
      ensures ChainInSync(after.table, after.live, c)
      ensures Filter(Foreign, after.live.At(c)) == Filter(Foreign, fw.live.At(c))
    {
      assert ChainInSync(fw.table, fw.live, c);
      if after != fw {
        AppendRow(fw, after.table[fw.nextId], c);
      }
    }
  }

  lemma UnblockKeepsMirror(fw: Fw, name: string)
    requires Intact(fw)
    ensures Intact(UnblockClient(fw, name).fw)
    ensures forall c :: Filter(Foreign, UnblockClient(fw, name).fw.live.At(c)) == Filter(Foreign, fw.live.At(c))
  {
    var after := UnblockClient(fw, name).fw;
    forall c
      ensures ChainInSync(after.table, after.live, c)
      ensures Filter(Foreign, after.live.At(c)) == Filter(Foreign, fw.live.At(c))
    {
      assert ChainInSync(fw.table, fw.live, c);
      var b := BlockRow(fw.table, name);
      if b.Some? && IsBlockOf(fw.table, name, b.value) {
        RemoveBlockRow(fw, fw.table - {b.value}, b.value, c);
        UnapplyBlockEffect(fw.live, fw.table[b.value], c);
      }
    }
  }

  lemma ResyncKeepsMirror(env: Env, fw: Fw)
    requires Intact(fw)
    ensures Intact(ResyncAll(env, fw).fw)
    ensures forall c :: Filter(Foreign, ResyncAll(env, fw).fw.live.At(c)) == Filter(Foreign, fw.live.At(c))
  {
    hide Filter, Foreign, ResyncAll, Stuck;
    ResyncExact(env, fw, FORWARD);
    CompleteReaches(fw.table, []);
    forall c
      ensures ChainInSync(fw.table, ResyncAll(env, fw).fw.live, c)
      ensures Filter(Foreign, ResyncAll(env, fw).fw.live.At(c)) == Filter(Foreign, fw.live.At(c))
    {
      ResyncExact(env, fw, c);
      assert ChainInSync(fw.table, fw.live, c);
    }
  }

  /** Each call, carried out or refused, keeps every chain in sync and keeps foreign rules in their order. */
  lemma StepKeepsMirror(env: Env, fw: Fw, who: Option<string>, op: Op)
    requires Intact(fw) && (op.Discover? ==> !Portless(fw))
    ensures Intact(Step(env, fw, who, op).fw)
    ensures forall c :: Filter(Foreign, Step(env, fw, who, op).fw.live.At(c)) == Filter(KeptBy(op, c), fw.live.At(c))
  {
    hide AddRule, ToggleRule, DisableRule, DeleteRule, ReorderRule, BlockClient, UnblockClient, DiscoverAll, ResyncAll,
      Intact, Portless, Filter, Foreign, Unadoptable;
    match op {
      case Add(r, note) => AddKeepsMirror(env, fw, who, r, note);
      case Toggle(id) => ToggleKeepsMirror(env, fw, who, id);
      case Disable(id) => DisableKeepsMirror(env, fw, who, id);
      case Delete(id) => DeleteKeepsMirror(env, fw, who, id);
      case Reorder(id, target, side) => ReorderKeepsMirror(env, fw, who, id, target, side);
      case Block(name, ip) => BlockKeepsMirror(env, fw, who, name, ip);
      case Unblock(name) => UnblockKeepsMirror(fw, name);
      case Resync => ResyncKeepsMirror(env, fw);
      case Discover => DiscoveryKeepsMirror(env, fw);
    }
  }

  ghost predicate Discovers(calls: seq<Call>) {
    exists k :: 0 <= k < |calls| && calls[k].op.Discover?
  }

  /** The foreign rules a chain keeps over a run. */
  ghost function KeptOver(calls: seq<Call>, c: Chain): LiveRule -> bool {
    if Discovers(calls) then Unadoptable(c) else Foreign
  }

  lemma KeptOverLast(calls: seq<Call>, c: Chain, r: LiveRule)
    requires calls != []
    ensures KeptOver(calls, c)(r)
         <==> KeptBy(calls[|calls| - 1].op, c)(r) && KeptOver(calls[..|calls| - 1], c)(r)
  {
    var last := |calls| - 1;
    if Discovers(calls) && !calls[last].op.Discover? {
      var k :| 0 <= k < |calls| && calls[k].op.Discover?;
      assert calls[..last][k].op.Discover?;
    }
    if Discovers(calls[..last]) {
      var k :| 0 <= k < last && calls[..last][k].op.Discover?;
      assert calls[k].op.Discover?;
    }
  }

  /** In a synced state what discovery would adopt is foreign. */
  lemma PortlessIsForeign(fw: Fw)
    requires InSync(fw)
    ensures Portless(fw)
            <==> exists r :: r in Filter(Foreign, fw.live.At(PREROUTING)) && Adopt(PREROUTING, r).Some? && r.dport.None?
  {
    hide Adopt, PrintAll, Ordered;
    assert ChainInSync(fw.table, fw.live, PREROUTING);
    forall r | r in fw.live.At(PREROUTING) && PortlessCandidate(fw.table, r)
      ensures Foreign(r)
    {
      if Owned(r) {
        assert r in Filter(Owned, fw.live.At(PREROUTING));
        ShownIsRow(fw.table, PREROUTING, r);
      }
    }
  }

  /** Along every run of calls every chain stays in sync, unless a discovery meets a port forward without a port; and
      its foreign rules are the initial ones in their order, less the adoptable ones once a discovery has run. */
  lemma {:induction false} RunKeepsMirror(env: Env, fw: Fw, calls: seq<Call>)
    requires Intact(fw) && (Discovers(calls) ==> !Portless(fw))
    ensures Intact(Run(env, fw, calls))
    ensures forall c :: Filter(Foreign, Run(env, fw, calls).live.At(c)) == Filter(KeptOver(calls, c), fw.live.At(c))
  {
    hide Step, Intact, Portless;
    if calls != [] {
      var last := |calls| - 1;
      var before := Run(env, fw, calls[..last]);
      DiscoversLast(calls);
      RunKeepsMirror(env, fw, calls[..last]);
      if calls[last].op.Discover? {
        StaysPortless(env, fw, calls[..last]);
      }
      StepKeepsMirror(env, before, calls[last].who, calls[last].op);
      forall c
        ensures Filter(Foreign, Run(env, fw, calls).live.At(c)) == Filter(KeptOver(calls, c), fw.live.At(c))
      {
        var op, start := calls[last].op, fw.live.At(c);
        forall r { KeptOverLast(calls, c, r); }
        FilterTwice(KeptBy(op, c), Foreign, KeptBy(op, c), before.live.At(c));
        FilterTwice(KeptBy(op, c), KeptOver(calls[..last], c), KeptOver(calls, c), start);
      }
    }
  }

  lemma DiscoversLast(calls: seq<Call>)
    requires calls != []
    ensures Discovers(calls) <==> Discovers(calls[..|calls| - 1]) || calls[|calls| - 1].op.Discover?
  {
    var last := |calls| - 1;
    if Discovers(calls) && !calls[last].op.Discover? {
      var k :| 0 <= k < |calls| && calls[k].op.Discover?;
      assert calls[..last][k].op.Discover?;
    }
    if Discovers(calls[..last]) {
      var k :| 0 <= k < last && calls[..last][k].op.Discover?;
      assert calls[k].op.Discover?;
    }
  }

  /** No call brings such a rule in, and only a discovery takes one out. */
  lemma StaysPortless(env: Env, fw: Fw, calls: seq<Call>)
    requires Intact(fw) && Intact(Run(env, fw, calls))
    requires forall c :: Filter(Foreign, Run(env, fw, calls).live.At(c)) == Filter(KeptOver(calls, c), fw.live.At(c))
    ensures Portless(Run(env, fw, calls)) ==> Portless(fw)
    ensures !Discovers(calls) ==> (Portless(Run(env, fw, calls)) <==> Portless(fw))
  {
    hide Run, Adopt, Filter;
    PortlessIsForeign(fw);
    PortlessIsForeign(Run(env, fw, calls));
  }

  /** The first discovery of a run keeps the mirror if and only if no port forward without a port was live at the
      start. */
  lemma FirstDiscoveryKeepsMirrorIff(env: Env, fw: Fw, calls: seq<Call>, who: Option<string>)
    requires Intact(fw) && !Discovers(calls)
    ensures InSync(Run(env, fw, calls + [Call(who, Op.Discover)])) <==> !Portless(fw)
  {
    hide Intact, Portless, DiscoverAll;
    RunKeepsMirror(env, fw, calls);
    StaysPortless(env, fw, calls);
    DiscoveryKeepsMirror(env, Run(env, fw, calls));
    var all := calls + [Call(who, Op.Discover)];
    assert all[..|all| - 1] == calls;
    assert Run(env, fw, all) == Discovered(env, Run(env, fw, calls));
  }

  /** The ordinary hand-made rule `-A PREROUTING -i eth0 -j DNAT --to-destination 10.8.0.2` is enough, in an otherwise
      empty system. */
  lemma PortlessForwardBreaksTheMirror(env: Env)
    ensures var r := PLAIN.(inIface := Some("eth0"), target := DnatTo("10.8.0.2", None));
            var fw := Fw(map[], 1, LiveChains([], [], [r], []));
            Intact(fw) && !InSync(Discovered(env, fw))
  {
    var r := PLAIN.(inIface := Some("eth0"), target := DnatTo("10.8.0.2", None));
    var fw := Fw(map[], 1, LiveChains([], [], [r], []));
    forall c
      ensures ChainInSync(fw.table, fw.live, c)
    {
      UnusedIsEmpty(fw.table, c);
      FilterNone(Owned, fw.live.At(c));
    }
    assert r in fw.live.At(PREROUTING) && PortlessCandidate(fw.table, r);
    DiscoveryKeepsMirror(env, fw);
  }

  /** What a discovery reports as gone: the rows of an ordered kind that are on and whose tag no chain shows. */
  lemma MissingAre(fw: Fw)
    ensures forall id :: id in Missing(fw)
              <==> id in fw.table && fw.table[id].enabled && !fw.table[id].rule.ClientBlock?
                   && forall c, r :: r in fw.live.At(c) ==> r.comment != Tracked(id)
  {
  }

  /** In a synced state a discovery reports no row as gone. */
  lemma SyncedReportsNothingMissing(fw: Fw)
    requires InSync(fw)
    ensures Missing(fw) == {}
  {
    hide Ordered, Printed, PrintAll, Filter;
    forall id | id in fw.table && fw.table[id].enabled && !fw.table[id].rule.ClientBlock?
      ensures IsListed(fw, id)
    {
      var c :| c in ChainsFor(fw.table[id].rule);
      RowIsLive(fw, id, c);
      PrintedTag(fw.table[id], c);
      assert Printed(fw.table[id], c) in fw.live.At(c) && Printed(fw.table[id], c).comment == Tracked(id);
    }
    assert forall id :: id !in Missing(fw);
  }
}
