/** Where a dragged rule lands. */
module Reordering {
  import opened Wrappers
  import opened Sequences
  import opened Rules
  import opened Lockout
  import opened Firewall
  import opened Edits
  import opened Mirror
  import opened SelfLockout

  /** Every row of a chain, enabled or not. */
  ghost function RowsIn(t: Table, c: Chain): set<Row> {
    set id | id in t && c in ChainsFor(t[id].rule) :: t[id]
  }

  ghost predicate DistinctIn(t: Table, c: Chain) {
    forall a, b :: a in RowsIn(t, c) && b in RowsIn(t, c) && a != b ==> a.position != b.position
  }

  ghost predicate DistinctPositions(t: Table) {
    forall c :: DistinctIn(t, c)
  }

  /** `a` comes directly before `b` in the order of these rows. */
  ghost predicate NextTo(rows: set<Row>, a: Row, b: Row) {
    && a in rows && b in rows && Less(a, b)
    && forall x :: x in rows ==> !(Less(a, x) && Less(x, b))
  }

  function Moved(t: Table, id: int, p: real): Row
    requires id in t
  {
    t[id].(position := p)
  }

  ghost function AfterDrop(t: Table, id: int, target: int, side: Side): Table
    requires CanReorder(t, id, target)
  {
    t[id := Moved(t, id, DropPosition(t, id, target, side))]
  }

  /** The moved row is directly before (or after) the target among the given rows of the changed table. */
  ghost predicate LandsAmong(rows: set<Row>, t: Table, id: int, target: int, side: Side)
    requires CanReorder(t, id, target)
  {
    var m := Moved(t, id, DropPosition(t, id, target, side));
    if side == Before then NextTo(rows, m, t[target]) else NextTo(rows, t[target], m)
  }

  ghost predicate Lands(t: Table, id: int, target: int, side: Side)
    requires CanReorder(t, id, target)
  {
    LandsAmong(Siblings(t, id) + {Moved(t, id, DropPosition(t, id, target, side))}, t, id, target, side)
  }

  /** What a caller can check before the call: the drop point has a gap, or the ids happen to be in order. */
  ghost predicate GapAt(t: Table, id: int, target: int, side: Side)
    requires Keyed(t) && CanReorder(t, id, target)
  {
    SiblingFacts(t, id, target);
    var s := Sorted(Siblings(t, id));
    var k := IndexOf(s, t[target]);
    var left, right := LeftOf(s, k, side), RightOf(s, k, side);
    Gap(left, right, id)
  }

  lemma SiblingFacts(t: Table, id: int, target: int)
    requires Keyed(t) && CanReorder(t, id, target)
    ensures Ascending(Sorted(Siblings(t, id))) && Elements(Sorted(Siblings(t, id))) == Siblings(t, id)
    ensures t[target] in Siblings(t, id) && t[target] in Sorted(Siblings(t, id))
    ensures forall x :: x in Siblings(t, id) ==> x.id != id
  {
    SortedIsAscending(Siblings(t, id));
    assert t[target] in Siblings(t, id);
    assert t[target] in Elements(Sorted(Siblings(t, id)));
  }

  /** In an ascending sequence everything is at or before slot k-1, or at or behind slot k. */
  lemma SplitAt(s: seq<Row>, k: nat, x: Row)
    requires Ascending(s) && k <= |s| && x in s
    ensures (k > 0 && (x == s[k - 1] || Less(x, s[k - 1]))) || (k < |s| && (x == s[k] || Less(s[k], x)))
  {
    var i :| 0 <= i < |s| && s[i] == x;
  }

  predicate Gap(left: Option<Row>, right: Option<Row>, id: int) {
    left.Some? && right.Some? ==>
      left.value.position < right.value.position || left.value.id < id < right.value.id
  }

  /** `left` and `right` are neighbours in the order of these rows, or the ends of it. */
  ghost predicate Straddles(rows: set<Row>, left: Option<Row>, right: Option<Row>) {
    && (left.Some? ==> left.value in rows) && (right.Some? ==> right.value in rows)
    && (left.Some? && right.Some? ==> Less(left.value, right.value))
    && forall x :: x in rows ==>
         (left.Some? && (x == left.value || Less(x, left.value)))
           || (right.Some? && (x == right.value || Less(right.value, x)))
  }

  lemma BetweenNeighbours(rows: set<Row>, left: Option<Row>, right: Option<Row>, m: Row)
    requires Straddles(rows, left, right) && m.position == Between(left, right)
    requires forall x :: x in rows ==> x.id != m.id
    ensures right.Some? ==> (NextTo(rows + {m}, m, right.value) <==> Gap(left, right, m.id))
    ensures left.Some? ==> (NextTo(rows + {m}, left.value, m) <==> Gap(left, right, m.id))
  {
    if right.Some? && left.Some? && !Gap(left, right, m.id) {
      assert m.position == left.value.position == right.value.position;
      assert left.value in rows + {m} && right.value in rows + {m};
    }
  }

  lemma DropStraddles(t: Table, id: int, target: int, side: Side)
    requires Keyed(t) && CanReorder(t, id, target)
    requires t[target] in Sorted(Siblings(t, id))
    ensures var s := Sorted(Siblings(t, id)); var k := IndexOf(s, t[target]);
            Straddles(Siblings(t, id), LeftOf(s, k, side), RightOf(s, k, side))
  {
    SiblingFacts(t, id, target);
    hide Straddles, Ascending, Sorted, Siblings, IndexOf;
    NeighboursStraddle(Siblings(t, id), Sorted(Siblings(t, id)), t[target], side);
  }

  lemma NeighboursStraddle(rows: set<Row>, s: seq<Row>, x: Row, side: Side)
    requires Ascending(s) && Elements(s) == rows && x in s
    ensures var k := IndexOf(s, x); Straddles(rows, LeftOf(s, k, side), RightOf(s, k, side))
  {
    hide Straddles, Ascending;
    var k := IndexOf(s, x);
    SlotStraddles(rows, s, if side == Before then k else k + 1);
  }

  /** The rows on either side of a slot. */
  lemma SlotStraddles(rows: set<Row>, s: seq<Row>, k: nat)
    requires Ascending(s) && Elements(s) == rows && k <= |s|
    ensures Straddles(rows, if k > 0 then Some(s[k - 1]) else None, if k < |s| then Some(s[k]) else None)
  {
    forall x
      ensures x in rows <==> x in s
    {
      assert x in rows <==> x in Elements(s);
    }
    forall x | x in s
      ensures (k > 0 && (x == s[k - 1] || Less(x, s[k - 1]))) || (k < |s| && (x == s[k] || Less(s[k], x)))
    {
      SplitAt(s, k, x);
    }
    hide Less;
  }

  /** Position p lies in the middle between x and its neighbour on that side, or one beyond x if there is none. */
  ghost predicate Midway(rows: set<Row>, x: Row, side: Side, p: real) {
    if side == Before then
      && (forall y :: NextTo(rows, y, x) ==> p + p == y.position + x.position)
      && ((forall y :: y in rows ==> !Less(y, x)) ==> p == x.position - 1.0)
    else
      && (forall y :: NextTo(rows, x, y) ==> p + p == x.position + y.position)
      && ((forall y :: y in rows ==> !Less(x, y)) ==> p == x.position + 1.0)
  }

  lemma DropIsMidway(t: Table, id: int, target: int, side: Side)
    requires Keyed(t) && CanReorder(t, id, target)
    ensures Midway(Siblings(t, id), t[target], side, DropPosition(t, id, target, side))
  {
    SiblingFacts(t, id, target);
    DropStraddles(t, id, target, side);
    var rows, s := Siblings(t, id), Sorted(Siblings(t, id));
    var k := IndexOf(s, t[target]);
    SiblingsDiffer(t, id);
    MiddleOf(rows, LeftOf(s, k, side), RightOf(s, k, side), t[target], side);
  }

  lemma SiblingsDiffer(t: Table, id: int)
    requires Keyed(t) && id in t
    ensures DistinctIds(Siblings(t, id))
  {
  }

  lemma MiddleOf(rows: set<Row>, left: Option<Row>, right: Option<Row>, x: Row, side: Side)
    requires DistinctIds(rows) && Straddles(rows, left, right) && (if side == Before then right else left) == Some(x)
    ensures Midway(rows, x, side, Between(left, right))
  {
    if side == Before {
      if y :| NextTo(rows, y, x) { assert left == Some(y); }
    } else {
      if y :| NextTo(rows, x, y) { assert right == Some(y); }
    }
  }

  /** A drag lands exactly where it was dropped if and only if the drop point has a gap. */
  lemma DropLandsExactly(t: Table, id: int, target: int, side: Side)
    requires Keyed(t) && CanReorder(t, id, target)
    ensures Lands(t, id, target, side) <==> GapAt(t, id, target, side)
  {
    SiblingFacts(t, id, target);
    DropStraddles(t, id, target, side);
    var s := Sorted(Siblings(t, id));
    var k := IndexOf(s, t[target]);
    var m := Moved(t, id, DropPosition(t, id, target, side));
    BetweenNeighbours(Siblings(t, id), LeftOf(s, k, side), RightOf(s, k, side), m);
  }

  /** All siblings of a rule meet in one chain. */
  lemma SiblingsShareAChain(t: Table, id: int) returns (c: Chain)
    requires id in t && ChainsFor(t[id].rule) != {}
    ensures Siblings(t, id) <= RowsIn(t, c) && c in ChainsFor(t[id].rule)
  {
    c := if t[id].rule.PortForward? then FORWARD
         else var d :| d in ChainsFor(t[id].rule); d;
  }

  /** With pairwise distinct positions in each chain there is always a gap. */
  lemma DistinctLeavesGap(t: Table, id: int, target: int, side: Side)
    requires Keyed(t) && DistinctPositions(t) && CanReorder(t, id, target)
    ensures GapAt(t, id, target, side)
  {
    SiblingFacts(t, id, target);
    DropStraddles(t, id, target, side);
    var c := SiblingsShareAChain(t, id);
    assert DistinctIn(t, c);
  }

  /** So the moved row becomes the direct neighbour of the target in every chain they share, enabled rows only or all.
      */
  lemma DropLandsInEveryChain(t: Table, id: int, target: int, side: Side, c: Chain)
    requires Keyed(t) && CanReorder(t, id, target) && GapAt(t, id, target, side)
    requires c in ChainsFor(t[id].rule) && c in ChainsFor(t[target].rule)
    ensures LandsAmong(RowsIn(AfterDrop(t, id, target, side), c), t, id, target, side)
    ensures t[id].enabled && t[target].enabled ==>
              LandsAmong(EnabledIn(AfterDrop(t, id, target, side), c), t, id, target, side)
  {
    DropLandsExactly(t, id, target, side);
    var t' := AfterDrop(t, id, target, side);
    var m := Moved(t, id, DropPosition(t, id, target, side));
    var all := Siblings(t, id) + {m};
    SiblingFacts(t, id, target);
    assert t'[id] == m && t'[target] == t[target];
    forall x | x in RowsIn(t', c)
      ensures x in all
    {
      var j :| j in t' && c in ChainsFor(t'[j].rule) && t'[j] == x;
      assert j != id ==> x == t[j] && c in ChainsFor(t[j].rule) * ChainsFor(t[id].rule);
    }
  }

  ghost function OthersIn(t: Table, id: int, c: Chain): set<Row> {
    set j | j in t && j != id && c in ChainsFor(t[j].rule) :: t[j]
  }

  lemma OthersSorted(t: Table, id: int, c: Chain)
    requires Keyed(t) && id in t
    ensures Without(Sorted(RowsIn(t, c)), t[id]) == Sorted(OthersIn(t, id, c))
  {
    var s := Sorted(RowsIn(t, c));
    SortedIsAscending(RowsIn(t, c));
    AscendingWithout(s, t[id]);
    forall x
      ensures x in Without(s, t[id]) <==> x in OthersIn(t, id, c)
    {
      assert x in s <==> x in Elements(s);
    }
    assert Elements(Without(s, t[id])) == OthersIn(t, id, c);
    SortedIs(OthersIn(t, id, c), Without(s, t[id]));
  }

  /** The rows other than the moved one keep their order, in every chain. */
  lemma OthersKeepOrder(t: Table, id: int, target: int, side: Side, c: Chain)
    requires Keyed(t) && CanReorder(t, id, target)
    ensures var t' := AfterDrop(t, id, target, side);
            Without(Sorted(RowsIn(t', c)), t'[id]) == Without(Sorted(RowsIn(t, c)), t[id])
  {
    hide DropPosition;
    var t' := AfterDrop(t, id, target, side);
    OthersSorted(t, id, c);
    OthersSorted(t', id, c);
    assert forall j :: j in t && j != id ==> t'[j] == t[j];
    forall x
      ensures x in OthersIn(t', id, c) <==> x in OthersIn(t, id, c)
    {
      if x in OthersIn(t, id, c) {
        var j :| j in t && j != id && c in ChainsFor(t[j].rule) && t[j] == x;
        assert t'[j] == x;
      }
      if x in OthersIn(t', id, c) {
        var j :| j in t' && j != id && c in ChainsFor(t'[j].rule) && t'[j] == x;
        assert t[j] == x;
      }
    }
    assert OthersIn(t', id, c) == OthersIn(t, id, c);
  }

  /** The new position belongs to no row that shares a chain with the dragged one. */
  lemma DropIsNew(t: Table, id: int, target: int, side: Side)
    requires Keyed(t) && DistinctPositions(t) && CanReorder(t, id, target)
    ensures forall x :: x in Siblings(t, id) ==> x.position != DropPosition(t, id, target, side)
  {
    SiblingFacts(t, id, target);
    DropStraddles(t, id, target, side);
    var c := SiblingsShareAChain(t, id);
    var s := Sorted(Siblings(t, id));
    var k := IndexOf(s, t[target]);
    assert DistinctIn(t, c);
    hide Straddles, Siblings, Sorted, CanReorder;
    StraddledDiffers(RowsIn(t, c), Siblings(t, id), LeftOf(s, k, side), RightOf(s, k, side));
  }

  lemma StraddledDiffers(chain: set<Row>, rows: set<Row>, left: Option<Row>, right: Option<Row>)
    requires Straddles(rows, left, right) && rows <= chain && (left.Some? || right.Some?)
    requires forall a, b :: a in chain && b in chain && a != b ==> a.position != b.position
    ensures forall x :: x in rows ==> x.position != Between(left, right)
  {
  }

  /** Dragging keeps positions pairwise distinct. */
  lemma DropKeepsDistinct(t: Table, id: int, target: int, side: Side)
    requires Keyed(t) && DistinctPositions(t) && CanReorder(t, id, target)
    ensures DistinctPositions(AfterDrop(t, id, target, side))
  {
    var t' := AfterDrop(t, id, target, side);
    DropIsNew(t, id, target, side);
    hide DropPosition;
    forall c, a, b | a in RowsIn(t', c) && b in RowsIn(t', c) && a != b
      ensures a.position != b.position
    {
      assert DistinctIn(t, c);
      assert a.id == id || a in RowsIn(t, c);
      assert b.id == id || b in RowsIn(t, c);
      if a.id == id {
        assert c in ChainsFor(b.rule) * ChainsFor(t[id].rule);
        assert t[b.id] in Siblings(t, id);
      } else if b.id == id {
        assert c in ChainsFor(a.rule) * ChainsFor(t[id].rule);
        assert t[a.id] in Siblings(t, id);
      }
    }
  }

  /** Two rows that tie, and a third dropped between them: it ends up behind both. */
  lemma TieMissesTheDropPoint(rule: Rule)
    requires ChainsFor(rule) != {}
    ensures var t := map[1 := Row(1, rule, "", true, 0.0), 2 := Row(2, rule, "", true, 0.0),
                         3 := Row(3, rule, "", true, 5.0)];
            CanReorder(t, 3, 2) && !Lands(t, 3, 2, Before)
  {
    var r1, r2, r3 := Row(1, rule, "", true, 0.0), Row(2, rule, "", true, 0.0), Row(3, rule, "", true, 5.0);
    var t := map[1 := r1, 2 := r2, 3 := r3];
    var c :| c in ChainsFor(rule);
    assert c in ChainsFor(rule) * ChainsFor(rule);
    assert CanReorder(t, 3, 2);
    assert t[1] in Siblings(t, 3) && t[2] in Siblings(t, 3);
    assert Siblings(t, 3) == {r1, r2};
    assert Elements([r1, r2]) == {r1, r2};
    SortedIs(Siblings(t, 3), [r1, r2]);
    DropLandsExactly(t, 3, 2, Before);
  }

  // ---------- the call ----------

  /** There is no such drag: a row is missing, the row is dropped on itself, or the two share no chain. */
  predicate CannotDrag(t: Table, id: int, target: int) {
    id !in t || target !in t || id == target || ChainsFor(t[id].rule) * ChainsFor(t[target].rule) == {}
  }

  ghost predicate Beside(rows: set<Row>, a: Row, b: Row, side: Side) {
    if side == Before then NextTo(rows, a, b) else NextTo(rows, b, a)
  }

  predicate Shared(t: Table, id: int, target: int, c: Chain)
    requires id in t && target in t
  {
    c in ChainsFor(t[id].rule) && c in ChainsFor(t[target].rule)
  }

  /** Among the tagged rules of a chain one row's rule comes directly before the other's. */
  ghost predicate TagsBeside(chain: seq<LiveRule>, first: int, second: int) {
    var v := Filter(Owned, chain);
    exists k :: 0 <= k < |v| - 1 && v[k].comment == Tracked(first) && v[k + 1].comment == Tracked(second)
  }

  /** A drag is refused if and only if there is no such drag, or an INPUT row would move to where it cuts the requester
      off. */
  lemma ReorderIsRefusedIff(env: Env, fw: Fw, who: Option<string>, id: int, target: int, side: Side)
    requires WellKept(fw)
    ensures CannotDrag(fw.table, id, target) <==> !CanReorder(fw.table, id, target)
    ensures ReorderRule(env, fw, who, id, target, side).result == Rejected
            <==> CannotDrag(fw.table, id, target)
                 || (fw.table[id].rule.Input? && CutsOff(env, who, AfterDrop(fw.table, id, target, side)))
  {
    hide LocksOut, Rebuilt, Reached, Stops, DropPosition, SimulatedMove, WouldAllow, EnabledInput, Visited;
    if CanReorder(fw.table, id, target) && fw.table[id].rule.Input? {
      var p := DropPosition(fw.table, id, target, side);
      MoveGuardExact(fw.table, id, p);
      LocksOutIs(env, who, SimulatedMove(fw.table, id, p));
    }
  }

  /** A drag that is not refused changes the row's position and nothing else in the table; and then the row stands
      directly before (or after) the target in every chain the two share if and only if the drop point has a gap. */
  lemma ReorderDoes(env: Env, fw: Fw, who: Option<string>, id: int, target: int, side: Side)
    requires WellKept(fw)
    ensures var reply := Step(env, fw, who, Op.Reorder(id, target, side));
            var t, t' := fw.table, reply.fw.table;
            if reply.result == Rejected then reply.fw == fw
            else
              && CanReorder(t, id, target) && id in t' && target in t' && OthersSame(t, t', id)
              && t'[id] == t[id].(position := t'[id].position)
              && Midway(Siblings(t, id), t[target], side, t'[id].position)
              && (GapAt(t, id, target, side)
                  <==> forall c :: Shared(t, id, target, c) ==> Beside(RowsIn(t', c), t'[id], t'[target], side))
  {
    hide Step, Beside, RowsIn, DropPosition, GapAt, Shared, CanReorder, Midway, Siblings;
    RefusedDrag(env, fw, who, id, target, side);
    var t := fw.table;
    var e := EditOf(env, fw, who, Op.Reorder(id, target, side));
    if e != Same {
      InTable(t, id, target);
      assert Edited(t, e) == AfterDrop(t, id, target, side);
      BesideIff(t, id, target, side);
      DropIsMidway(t, id, target, side);
    }
  }

  lemma RefusedDrag(env: Env, fw: Fw, who: Option<string>, id: int, target: int, side: Side)
    ensures Step(env, fw, who, Op.Reorder(id, target, side)).result == Rejected ==>
              Step(env, fw, who, Op.Reorder(id, target, side)).fw == fw
  {
    hide LocksOut, Rebuilt, Reached, Stops, DropPosition, SimulatedMove, Visited, CanReorder;
  }

  lemma BesideIff(t: Table, id: int, target: int, side: Side)
    requires Keyed(t) && CanReorder(t, id, target)
    ensures var t' := AfterDrop(t, id, target, side);
            GapAt(t, id, target, side)
            <==> forall c :: Shared(t, id, target, c) ==> Beside(RowsIn(t', c), t'[id], t'[target], side)
  {
    hide DropPosition, GapAt, RowsIn, Siblings, NextTo;
    var t' := AfterDrop(t, id, target, side);
    if GapAt(t, id, target, side) {
      forall c | Shared(t, id, target, c)
        ensures Beside(RowsIn(t', c), t'[id], t'[target], side)
      {
        DropLandsInEveryChain(t, id, target, side, c);
      }
    }
    var c := SiblingsMeet(t, id, target, side);
    if Beside(RowsIn(t', c), t'[id], t'[target], side) {
      DropLandsExactly(t, id, target, side);
    }
  }

  /** One shared chain holds all the siblings, and after the drag nothing but them and the moved row. */
  lemma SiblingsMeet(t: Table, id: int, target: int, side: Side) returns (c: Chain)
    requires Keyed(t) && CanReorder(t, id, target)
    ensures Shared(t, id, target, c)
    ensures RowsIn(AfterDrop(t, id, target, side), c)
            == Siblings(t, id) + {Moved(t, id, DropPosition(t, id, target, side))}
  {
    hide DropPosition;
    c := SiblingsShareAChain(t, id);
    var t' := AfterDrop(t, id, target, side);
    assert t[target] in Siblings(t, id);
    forall x
      ensures x in RowsIn(t', c) <==> x in Siblings(t, id) || x == t'[id]
    {
      if x in RowsIn(t', c) && x != t'[id] {
        var j :| j in t' && c in ChainsFor(t'[j].rule) && t'[j] == x;
        assert c in ChainsFor(t[j].rule) * ChainsFor(t[id].rule);
      }
      if x in Siblings(t, id) {
        var j :| j in t && c in ChainsFor(t[j].rule) && t[j] == x;
        assert t'[x.id] == x;
      }
      assert t'[id] in RowsIn(t', c);
    }
  }

  /** And in an intact system, with a gap and both rows on, the two live rules stand directly one after the other in
      every shared chain. */
  lemma ReorderIsLive(env: Env, fw: Fw, who: Option<string>, id: int, target: int, side: Side, c: Chain)
    requires Intact(fw) && CanReorder(fw.table, id, target) && GapAt(fw.table, id, target, side)
    requires Shared(fw.table, id, target, c) && fw.table[id].enabled && fw.table[target].enabled
    requires Step(env, fw, who, Op.Reorder(id, target, side)).result != Rejected
    ensures var live := Step(env, fw, who, Op.Reorder(id, target, side)).fw.live;
            if side == Before then TagsBeside(live.At(c), id, target) else TagsBeside(live.At(c), target, id)
  {
    hide GapAt, DropPosition, CompleteTable, Filter, PrintAll, Ordered, NextTo, EnabledIn;
    var after := Step(env, fw, who, Op.Reorder(id, target, side)).fw;
    StepKeepsMirror(env, fw, who, Op.Reorder(id, target, side));
    var e := EditOf(env, fw, who, Op.Reorder(id, target, side));
    hide Step;
    DropLandsInEveryChain(fw.table, id, target, side, c);
    assert after.table == AfterDrop(fw.table, id, target, side);
    assert ChainInSync(after.table, after.live, c);
    var first, second := if side == Before then id else target, if side == Before then target else id;
    Adjacent(after.table, c, after.table[first], after.table[second]);
  }

  /** Neighbours in the order of a chain are printed one directly after the other. */
  lemma Adjacent(t: Table, c: Chain, a: Row, b: Row)
    requires Keyed(t) && NextTo(EnabledIn(t, c), a, b)
    ensures var v := PrintAll(Ordered(t, c), c);
            exists k :: 0 <= k < |v| - 1 && v[k].comment == Tracked(a.id) && v[k + 1].comment == Tracked(b.id)
  {
    hide Less, Ordered, PrintAll, NextTo;
    OrderedFacts(t, c);
    var s := Ordered(t, c);
    AmongRows(EnabledIn(t, c), a, b);
    var i :| 0 <= i < |s| && s[i] == a;
    var j :| 0 <= j < |s| && s[j] == b;
    NextIndex(s, EnabledIn(t, c), i, j);
    ShowsTag(s, c, i);
    ShowsTag(s, c, i + 1);
  }

  lemma AmongRows(rows: set<Row>, a: Row, b: Row)
    requires NextTo(rows, a, b)
    ensures a in rows && b in rows
  {
  }

  lemma ShowsTag(s: seq<Row>, c: Chain, i: nat)
    requires i < |s| && !s[i].rule.ClientBlock?
    ensures |PrintAll(s, c)| == |s| && PrintAll(s, c)[i].comment == Tracked(s[i].id)
  {
    PrintedTag(s[i], c);
  }

  lemma NextIndex(s: seq<Row>, rows: set<Row>, i: nat, j: nat)
    requires Ascending(s) && Elements(s) == rows && i < |s| && j < |s| && NextTo(rows, s[i], s[j])
    ensures j == i + 1
  {
    assert i < |s| - 1 ==> s[i + 1] in Elements(s);
  }

  // ---------- runs ----------

  /** Every call but discovery keeps positions pairwise distinct in each chain. */
  lemma StepKeepsDistinct(env: Env, fw: Fw, who: Option<string>, op: Op)
    requires WellKept(fw) && DistinctPositions(fw.table) && !op.Discover?
    ensures WellKept(Step(env, fw, who, op).fw) && DistinctPositions(Step(env, fw, who, op).fw.table)
  {
    hide Step, DropPosition, DistinctPositions, MaxPosition, CanReorder;
    var t := fw.table;
    var e := EditOf(env, fw, who, op);
    NextIdAfter(env, fw, who, op);
    if op.Reorder? && e.Put? {
      InTable(t, op.id, op.target);
      assert Edited(t, e) == AfterDrop(t, op.id, op.target, op.side);
      DropKeepsDistinct(t, op.id, op.target, op.side);
    } else if (op.Add? || op.Block?) && e.Put? {
      MaxPositionBounds(AllRows(t));
      NewTopKeepsDistinct(t, e.row);
    } else {
      ShrinkKeepsDistinct(t, Edited(t, e));
    }
  }

  lemma NewTopKeepsDistinct(t: Table, row: Row)
    requires Keyed(t) && DistinctPositions(t) && row.id !in t
    requires forall id :: id in t ==> t[id].position < row.position
    ensures DistinctPositions(t[row.id := row])
  {
    var t' := t[row.id := row];
    forall c, a, b | a in RowsIn(t', c) && b in RowsIn(t', c) && a != b
      ensures a.position != b.position
    {
      assert DistinctIn(t, c);
      assert a == row || a in RowsIn(t, c);
      assert b == row || b in RowsIn(t, c);
    }
  }

  lemma ShrinkKeepsDistinct(t: Table, t': Table)
    requires Keyed(t) && Keyed(t') && DistinctPositions(t)
    requires forall id :: id in t' ==> id in t && t'[id].position == t[id].position && t'[id].rule == t[id].rule
    ensures DistinctPositions(t')
  {
    forall c, a, b | a in RowsIn(t', c) && b in RowsIn(t', c) && a != b
      ensures a.position != b.position
    {
      assert DistinctIn(t, c);
      assert a.id in t && t[a.id] in RowsIn(t, c);
      assert b.id in t && t[b.id] in RowsIn(t, c);
      assert t[a.id] != t[b.id];
    }
  }

  /** If the drag is not refused, its row ends directly beside the target in every chain the two share. */
  ghost predicate DropsRight(env: Env, fw: Fw, who: Option<string>, id: int, target: int, side: Side) {
    var reply := Step(env, fw, who, Op.Reorder(id, target, side));
    reply.result != Rejected ==>
      && id in fw.table && target in fw.table && id in reply.fw.table && target in reply.fw.table
      && forall c :: Shared(fw.table, id, target, c) ==>
           Beside(RowsIn(reply.fw.table, c), reply.fw.table[id], reply.fw.table[target], side)
  }

  lemma DistinctDropsRight(env: Env, fw: Fw, who: Option<string>, id: int, target: int, side: Side)
    requires WellKept(fw) && DistinctPositions(fw.table)
    ensures DropsRight(env, fw, who, id, target, side)
  {
    hide Step, Beside, RowsIn, CanReorder, GapAt, DistinctPositions;
    ReorderDoes(env, fw, who, id, target, side);
    if CanReorder(fw.table, id, target) {
      InTable(fw.table, id, target);
      DistinctLeavesGap(fw.table, id, target, side);
    }
  }

  /** Along every run without discovery positions stay distinct, so every drag in it or after it lands exactly. */
  lemma {:induction false} RunKeepsDistinct(env: Env, fw: Fw, calls: seq<Call>)
    requires WellKept(fw) && DistinctPositions(fw.table) && !Discovers(calls)
    ensures WellKept(Run(env, fw, calls)) && DistinctPositions(Run(env, fw, calls).table)
    ensures forall who, id, target, side :: DropsRight(env, Run(env, fw, calls), who, id, target, side)
  {
    hide Step, DropsRight;
    if calls != [] {
      var last := |calls| - 1;
      assert !Discovers(calls[..last]) by {
        assert forall k :: 0 <= k < last ==> calls[..last][k] == calls[k];
      }
      RunKeepsDistinct(env, fw, calls[..last]);
      StepKeepsDistinct(env, Run(env, fw, calls[..last]), calls[last].who, calls[last].op);
    }
    forall who, id, target, side { DistinctDropsRight(env, Run(env, fw, calls), who, id, target, side); }
  }
}
