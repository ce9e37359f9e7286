/** When a discovery keeps the positions of each chain pairwise distinct. */
module Ties {
  import opened Wrappers
  import opened Sequences
  import opened Rules
  import opened Lockout
  import opened Discovery
  import opened Firewall
  import opened Edits
  import opened Mirror
  import opened Adoption
  import opened Reordering

  // ---------- the rows a discovery records, slot by slot ----------

  /** A rule to adopt, at place i of a listing. */
  predicate Slot(fw: Fw, d: Chain, i: nat) {
    i < |fw.live.At(d)| && Candidate(fw.table, d, fw.live.At(d)[i])
  }

  /** The position it will be given. */
  function Spot(fw: Fw, d: Chain, i: nat): real
    requires Slot(fw, d, i)
  {
    PositionAt(AnchorsOf(fw.table, fw.live.At(d)), i)
  }

  /** The row it will become. */
  function RecordedRow(fw: Fw, d: Chain, i: nat): Row
    requires Slot(fw, d, i)
  {
    var specs, firstId := fw.live.At(d), Scanned(fw, IndexOf(TARGETS, d)).0.nextId;
    AdoptedRow(fw.table, d, specs, i, firstId + |AdoptedRows(fw.table, d, specs, i, firstId)|)
  }

  lemma {:induction false} AdoptedAt(t: Table, c: Chain, specs: seq<LiveRule>, i: nat, n: nat, firstId: int)
    requires i < n <= |specs| && Candidate(t, c, specs[i])
    ensures var k := |AdoptedRows(t, c, specs, i, firstId)|;
            k < |AdoptedRows(t, c, specs, n, firstId)|
            && AdoptedRows(t, c, specs, n, firstId)[k] == AdoptedRow(t, c, specs, i, firstId + k)
  {
    hide Candidate, AdoptedRow;
    if i + 1 < n {
      AdoptedAt(t, c, specs, i, n - 1, firstId);
    }
  }

  lemma {:induction false} AdoptedFrom(t: Table, c: Chain, specs: seq<LiveRule>, n: nat, firstId: int, k: nat)
      returns (i: nat)
    requires n <= |specs| && k < |AdoptedRows(t, c, specs, n, firstId)|
    ensures i < n && Candidate(t, c, specs[i]) && k == |AdoptedRows(t, c, specs, i, firstId)|
    ensures AdoptedRows(t, c, specs, n, firstId)[k] == AdoptedRow(t, c, specs, i, firstId + k)
  {
    hide Candidate, AdoptedRow;
    if k < |AdoptedRows(t, c, specs, n - 1, firstId)| {
      i := AdoptedFrom(t, c, specs, n - 1, firstId, k);
    } else {
      i := n - 1;
    }
  }

  /** Place i of a listing becomes this row, the ids going on from firstId. */
  predicate Becomes(t: Table, d: Chain, specs: seq<LiveRule>, firstId: int, i: nat, row: Row) {
    i < |specs| && Candidate(t, d, specs[i])
    && row == AdoptedRow(t, d, specs, i, firstId + |AdoptedRows(t, d, specs, i, firstId)|)
  }

  lemma AdoptedAre(t: Table, d: Chain, specs: seq<LiveRule>, firstId: int, row: Row)
    ensures row in AdoptedRows(t, d, specs, |specs|, firstId) <==> exists i :: Becomes(t, d, specs, firstId, i, row)
  {
    hide Becomes, AdoptedRows;
    if row in AdoptedRows(t, d, specs, |specs|, firstId) {
      var i := BecameFrom(t, d, specs, firstId, row);
    }
    if i: nat :| Becomes(t, d, specs, firstId, i, row) {
      BecomesRow(t, d, specs, firstId, i, row);
    }
  }

  lemma BecameFrom(t: Table, d: Chain, specs: seq<LiveRule>, firstId: int, row: Row) returns (i: nat)
    requires row in AdoptedRows(t, d, specs, |specs|, firstId)
    ensures Becomes(t, d, specs, firstId, i, row)
  {
    hide Candidate, AdoptedRow, AdoptedRows, ChainsFor;
    var m :| 0 <= m < |AdoptedRows(t, d, specs, |specs|, firstId)|
             && AdoptedRows(t, d, specs, |specs|, firstId)[m] == row;
    i := AdoptedFrom(t, d, specs, |specs|, firstId, m);
  }

  lemma BecomesRow(t: Table, d: Chain, specs: seq<LiveRule>, firstId: int, i: nat, row: Row)
    requires Becomes(t, d, specs, firstId, i, row)
    ensures row in AdoptedRows(t, d, specs, |specs|, firstId)
  {
    hide Candidate, AdoptedRow, AdoptedRows, ChainsFor;
    AdoptedAt(t, d, specs, i, |specs|, firstId);
  }

  lemma RecordedIs(fw: Fw, d: Chain, i: nat, row: Row)
    ensures Becomes(fw.table, d, fw.live.At(d), Scanned(fw, IndexOf(TARGETS, d)).0.nextId, i, row)
            <==> Slot(fw, d, i) && row == RecordedRow(fw, d, i)
  {
    hide Scanned, Candidate, AdoptedRow, AdoptedRows;
  }

  lemma ScanRowsAre(fw: Fw, d: Chain, row: Row)
    ensures row in ScanRows(fw.table, d, Scanned(fw, IndexOf(TARGETS, d)).0)
            <==> exists i :: Slot(fw, d, i) && row == RecordedRow(fw, d, i)
  {
    hide Scanned, AdoptedRows, Becomes, Slot, RecordedRow;
    var k := IndexOf(TARGETS, d);
    ScannedLive(fw, k, k);
    AdoptedAre(fw.table, d, fw.live.At(d), Scanned(fw, k).0.nextId, row);
    forall i: nat { RecordedIs(fw, d, i, row); }
  }

  lemma NewRowsAre(fw: Fw, row: Row)
    ensures row in NewRows(fw, 4) <==> exists d, i :: Slot(fw, d, i) && row == RecordedRow(fw, d, i)
  {
    hide Scanned, Slot, RecordedRow, ScanRows, NewRows;
    NewRowsSplit(fw);
    assert IndexOf(TARGETS, FORWARD) == 0 && IndexOf(TARGETS, INPUT) == 1;
    assert IndexOf(TARGETS, PREROUTING) == 2 && IndexOf(TARGETS, POSTROUTING) == 3;
    ScanRowsAre(fw, FORWARD, row);
    ScanRowsAre(fw, INPUT, row);
    ScanRowsAre(fw, PREROUTING, row);
    ScanRowsAre(fw, POSTROUTING, row);
    if d, i :| Slot(fw, d, i) && row == RecordedRow(fw, d, i) {
      assert d == FORWARD || d == INPUT || d == PREROUTING || d == POSTROUTING;
    }
  }

  lemma NewRowsSplit(fw: Fw)
    ensures NewRows(fw, 4)
            == ScanRows(fw.table, FORWARD, Scanned(fw, 0).0) + ScanRows(fw.table, INPUT, Scanned(fw, 1).0)
             + ScanRows(fw.table, PREROUTING, Scanned(fw, 2).0) + ScanRows(fw.table, POSTROUTING, Scanned(fw, 3).0)
  {
    hide Scanned, ScanRows;
    assert NewRows(fw, 1) == ScanRows(fw.table, FORWARD, Scanned(fw, 0).0) by { assert NewRows(fw, 0) == []; }
    assert NewRows(fw, 2) == NewRows(fw, 1) + ScanRows(fw.table, INPUT, Scanned(fw, 1).0);
    assert NewRows(fw, 3) == NewRows(fw, 2) + ScanRows(fw.table, PREROUTING, Scanned(fw, 2).0);
  }

  /** The new row takes part in the chain. */
  predicate Feeds(d: Chain, c: Chain) {
    d == c || (d == PREROUTING && c == FORWARD)
  }

  lemma RecordedFacts(fw: Fw, d: Chain, i: nat, c: Chain)
    requires Slot(fw, d, i)
    ensures var row := RecordedRow(fw, d, i);
            && row.position == Spot(fw, d, i) && row.enabled && (c in ChainsFor(row.rule) <==> Feeds(d, c))
            && (row.rule.PortForward? <==> d == PREROUTING)
  {
    hide Scanned, AdoptedRows, PositionAt, Adopt;
    AdoptedKinds(d, fw.live.At(d)[i]);
  }

  lemma AdoptedKinds(d: Chain, r: LiveRule)
    requires Adopt(d, r).Some?
    ensures ChainsFor(Adopt(d, r).value) == if d == PREROUTING then {PREROUTING, FORWARD} else {d}
    ensures Adopt(d, r).value.PortForward? <==> d == PREROUTING
  {
  }

  /** The rows of a chain after a discovery: those it had, and one for each slot that feeds it. */
  lemma RowsAfter(env: Env, fw: Fw, c: Chain, row: Row)
    requires WellKept(fw)
    ensures row in RowsIn(Discovered(env, fw).table, c)
            <==> row in RowsIn(fw.table, c)
                 || exists d, i :: Slot(fw, d, i) && Feeds(d, c) && row == RecordedRow(fw, d, i)
    ensures (exists d, i :: Slot(fw, d, i) && row == RecordedRow(fw, d, i)) ==> row.id !in fw.table
  {
    hide Scanned, Slot, RecordedRow, NewRows, Inserted, Feeds, RowsIn, ChainsFor, Discovered, Adopted;
    DiscoveredTable(env, fw);
    ScannedTable(fw, 4);
    InsertedRows(fw.table, NewRows(fw, 4), fw.nextId, c, row);
    NewRowsAre(fw, row);
    forall d, i | Slot(fw, d, i) && row == RecordedRow(fw, d, i)
      ensures c in ChainsFor(row.rule) <==> Feeds(d, c)
    {
      RecordedFacts(fw, d, i, c);
    }
  }

  lemma InsertedRows(t: Table, rows: seq<Row>, firstId: int, c: Chain, row: Row)
    requires Keyed(t) && (forall id :: id in t ==> id < firstId)
    requires forall k :: 0 <= k < |rows| ==> rows[k].id == firstId + k
    ensures row in RowsIn(Inserted(t, rows), c) <==> row in RowsIn(t, c) || (row in rows && c in ChainsFor(row.rule))
    ensures row in rows ==> row.id !in t
  {
    hide Inserted, ChainsFor;
    InsertedFacts(t, rows, firstId);
    var t' := Inserted(t, rows);
    if row in rows {
      var k :| 0 <= k < |rows| && rows[k] == row;
      assert t'[firstId + k] == row && row.id == firstId + k;
    }
    if row in RowsIn(t, c) {
      assert t'[row.id] == row;
    }
    if row in RowsIn(t', c) && row !in RowsIn(t, c) {
      assert t'[firstId + (row.id - firstId)] == rows[row.id - firstId];
    }
  }

  /** Discovery records every hand-made rule that fits its chain, and every rule whose tag names no row: as a row that
      is on, under a new id, noted as found on the command line; and if the rule is in the application's own grammar the
      row's rule means the same.  Rows that were there stay as they are. */
  lemma DiscoverDoes(env: Env, fw: Fw, who: Option<string>, c: Chain, r: LiveRule)
    requires WellKept(fw) && r in fw.live.At(c) && Fits(c, r.target)
    requires !r.comment.BlockTag? && !(r.comment.Tracked? && r.comment.id in fw.table)
    ensures var t' := Step(env, fw, who, Op.Discover).fw.table;
            && (exists id :: Records(fw, t', c, r, id))
            && forall j :: j in fw.table ==> j in t' && t'[j] == fw.table[j]
  {
    hide Scanned, DiscoverAll, Records;
    assert Step(env, fw, who, Op.Discover).fw == Discovered(env, fw);
    hide Step;
    var id := RecordedFor(env, fw, c, r);
    ScannedNew(fw, 4);
    DiscoveredTable(env, fw);
  }

  ghost predicate Records(fw: Fw, t': Table, c: Chain, r: LiveRule, id: int) {
    && id >= fw.nextId && id !in fw.table && id in t' && t'[id].enabled && c in ChainsFor(t'[id].rule)
    && t'[id].note == "(from CLI)" + (if r.comment.Note? then " " + r.comment.text else "")
    && (InGrammar(c, r) ==> Meaning(Printed(t'[id], c)) == Meaning(r))
  }

  lemma RecordedFor(env: Env, fw: Fw, c: Chain, r: LiveRule) returns (id: int)
    requires WellKept(fw) && r in fw.live.At(c) && Fits(c, r.target)
    requires !r.comment.BlockTag? && !(r.comment.Tracked? && r.comment.id in fw.table)
    ensures Records(fw, Discovered(env, fw).table, c, r, id)
  {
    hide Scanned, AdoptedRows, PositionAt, Adopt, Printed, InGrammar, DiscoverAll, Meaning, RowsIn, ChainsFor;
    AdoptsIff(c, r);
    var i :| 0 <= i < |fw.live.At(c)| && fw.live.At(c)[i] == r;
    assert Slot(fw, c, i);
    var row := RecordedRow(fw, c, i);
    RowsAfter(env, fw, c, row);
    id := row.id;
    ScannedNew(fw, 4);
    ScansKeepWell(fw, 4);
    DiscoveredTable(env, fw);
    RecordedInTable(env, fw, c, row);
    if InGrammar(c, r) { AdoptedPrintsBack(c, r, row); }
    NoteOf(r.comment);
  }

  lemma NoteOf(c: Comment)
    ensures AdoptedNote(c) == "(from CLI)" + (if c.Note? then " " + c.text else "")
  {
    assert "(from CLI) " == "(from CLI)" + " ";
  }

  lemma RecordedInTable(env: Env, fw: Fw, c: Chain, row: Row)
    requires Keyed(Discovered(env, fw).table) && row in RowsIn(Discovered(env, fw).table, c)
    ensures row.id in Discovered(env, fw).table && Discovered(env, fw).table[row.id] == row && c in ChainsFor(row.rule)
  {
    hide DiscoverAll;
  }

  // ---------- when positions stay distinct ----------

  /** What a caller can check before the call: a rule to adopt will be given the position of a row that is switched off;
      or a port forward to adopt, whose second half goes to FORWARD, that of a FORWARD row or of a FORWARD rule to
      adopt. */
  ghost predicate Collides(fw: Fw, c: Chain) {
    || MeetsDisabled(fw, c)
    || (c == FORWARD && (MeetsForward(fw) || MeetsNewForward(fw)))
  }

  ghost predicate MeetsDisabled(fw: Fw, c: Chain) {
    exists i, row :: Slot(fw, c, i) && row in RowsIn(fw.table, c) && !row.enabled && row.position == Spot(fw, c, i)
  }

  ghost predicate MeetsForward(fw: Fw) {
    exists i, row :: Slot(fw, PREROUTING, i) && row in RowsIn(fw.table, FORWARD)
                     && row.position == Spot(fw, PREROUTING, i)
  }

  ghost predicate MeetsNewForward(fw: Fw) {
    exists i, j :: Slot(fw, PREROUTING, i) && Slot(fw, FORWARD, j) && Spot(fw, PREROUTING, i) == Spot(fw, FORWARD, j)
  }

  /** Strictly climbing tags leave room everywhere. */
  lemma DistinctHasRoom(t: Table, c: Chain, specs: seq<LiveRule>)
    requires forall i, j :: 0 <= i < j < |specs| && Known(t, specs[i]) && Known(t, specs[j]) ==>
               t[specs[i].comment.id].position < t[specs[j].comment.id].position
    ensures HasRoom(t, c, specs)
  {
    hide Adopt;
    var a := AnchorsOf(t, specs);
    forall i | 0 <= i < |specs| && Candidate(t, c, specs[i])
      ensures Roomy(a, i)
    {
      var s, e := RunStart(a, i), RunEnd(a, i);
      if s > 0 && e < |a| {
        assert Known(t, specs[s - 1]) && Known(t, specs[e]);
      }
    }
  }

  lemma TagsApart(fw: Fw, c: Chain)
    requires InSync(fw) && DistinctIn(fw.table, c)
    ensures var t, specs := fw.table, fw.live.At(c);
            forall i, j :: 0 <= i < j < |specs| && Known(t, specs[i]) && Known(t, specs[j]) ==>
              t[specs[i].comment.id].position < t[specs[j].comment.id].position
  {
    var t, specs := fw.table, fw.live.At(c);
    hide InSync, DistinctIn;
    SyncedTags(fw, c);
    forall i, j | 0 <= i < j < |specs| && Known(t, specs[i]) && Known(t, specs[j])
      ensures t[specs[i].comment.id].position < t[specs[j].comment.id].position
    {
      assert Less(t[specs[i].comment.id], t[specs[j].comment.id]);
      TagsDiffer(fw, c, i, j);
    }
  }

  lemma TagsDiffer(fw: Fw, c: Chain, i: nat, j: nat)
    requires InSync(fw) && DistinctIn(fw.table, c) && i < |fw.live.At(c)| && j < |fw.live.At(c)|
    requires Known(fw.table, fw.live.At(c)[i]) && Known(fw.table, fw.live.At(c)[j])
    ensures var x, y := fw.table[fw.live.At(c)[i].comment.id], fw.table[fw.live.At(c)[j].comment.id];
            x != y ==> x.position != y.position
  {
    hide InSync;
    TagsInChain(fw, c, i);
    TagsInChain(fw, c, j);
  }

  /** Along one listing no place is given twice, whether to a tracked row or to a new one. */
  lemma PlacesApart(fw: Fw, c: Chain, i: nat, j: nat)
    requires InSync(fw) && DistinctIn(fw.table, c) && i < |fw.live.At(c)| && j < |fw.live.At(c)| && i != j
    requires Slot(fw, c, i) && (Slot(fw, c, j) || Known(fw.table, fw.live.At(c)[j]))
    ensures Place(AnchorsOf(fw.table, fw.live.At(c)), i) == Spot(fw, c, i)
    ensures Place(AnchorsOf(fw.table, fw.live.At(c)), i) != Place(AnchorsOf(fw.table, fw.live.At(c)), j)
  {
    hide InSync, DistinctIn, Adopt, PositionAt, Roomy, TagsClimb;
    var a := AnchorsOf(fw.table, fw.live.At(c));
    TagsApart(fw, c);
    DistinctHasRoom(fw.table, c, fw.live.At(c));
    SyncedTags(fw, c);
    ClimbingAnchors(fw.table, fw.live.At(c));
    if i < j { PlacesClimb(a, i, j); } else { PlacesClimb(a, j, i); }
  }

  /** A new row of the chain's own listing meets no enabled row of it. */
  lemma MeetsNoEnabled(fw: Fw, c: Chain, i: nat, row: Row)
    requires InSync(fw) && DistinctIn(fw.table, c) && Slot(fw, c, i) && row in RowsIn(fw.table, c) && row.enabled
    ensures row.position != Spot(fw, c, i)
  {
    hide InSync, DistinctIn, Spot, Candidate, NamedBelow;
    var t, specs := fw.table, fw.live.At(c);
    SyncedTags(fw, c);
    assert row in EnabledIn(t, c);
    var j := NamedAt(t, specs, row);
    CandidateIsNew(t, c, specs[i]);
    PlacesApart(fw, c, i, j);
  }

  lemma NamedAt(t: Table, specs: seq<LiveRule>, row: Row) returns (j: nat)
    requires NamedBelow(t, specs, |specs|, row)
    ensures j < |specs| && Known(t, specs[j]) && row == t[specs[j].comment.id]
    ensures Place(AnchorsOf(t, specs), j) == row.position
  {
    j :| j < |specs| && Known(t, specs[j]) && row == t[specs[j].comment.id];
  }

  /** Two slots that feed a chain get different positions, unless a FORWARD rule meets the second half of a port
      forward. */
  lemma NewRowsApart(fw: Fw, c: Chain, d: Chain, i: nat, e: Chain, j: nat)
    requires InSync(fw) && DistinctIn(fw.table, d) && Slot(fw, d, i) && Slot(fw, e, j)
    requires Feeds(d, c) && Feeds(e, c) && (d, i) != (e, j) && !Collides(fw, c)
    ensures Spot(fw, d, i) != Spot(fw, e, j)
  {
    hide InSync, DistinctIn, Spot, MeetsDisabled, MeetsForward;
    if d == e {
      SpotIsPlace(fw, e, j);
      PlacesApart(fw, d, i, j);
    }
  }

  lemma SpotIsPlace(fw: Fw, c: Chain, i: nat)
    requires Slot(fw, c, i)
    ensures Place(AnchorsOf(fw.table, fw.live.At(c)), i) == Spot(fw, c, i)
  {
    hide PositionAt;
  }

  lemma NewMeetsOld(fw: Fw, c: Chain, d: Chain, i: nat, row: Row)
    requires InSync(fw) && DistinctIn(fw.table, c) && Slot(fw, d, i) && Feeds(d, c) && !Collides(fw, c)
    requires row in RowsIn(fw.table, c)
    ensures row.position != Spot(fw, d, i)
  {
    hide InSync, DistinctIn, Spot, MeetsNewForward, RowsIn;
    if d == c && row.enabled { MeetsNoEnabled(fw, c, i, row); }
  }

  /** A discovery keeps the positions of a chain pairwise distinct if and only if no such collision is due. */
  lemma DiscoveryKeepsDistinctIff(env: Env, fw: Fw, c: Chain)
    requires InSync(fw) && DistinctIn(fw.table, c) && (!OwnListing(fw, c) ==> DistinctIn(fw.table, PREROUTING))
    ensures DistinctIn(Discovered(env, fw).table, c) <==> !Collides(fw, c)
  {
    if Collides(fw, c) {
      CollisionTies(env, fw, c);
    } else {
      NoCollision(env, fw, c);
    }
  }

  lemma NoCollision(env: Env, fw: Fw, c: Chain)
    requires InSync(fw) && DistinctIn(fw.table, c) && (!OwnListing(fw, c) ==> DistinctIn(fw.table, PREROUTING))
    requires !Collides(fw, c)
    ensures DistinctIn(Discovered(env, fw).table, c)
  {
    hide InSync, RowsIn, Discovered, Collides, Spot, Slot, RecordedRow;
    var t' := Discovered(env, fw).table;
    SyncedIsWellKept(fw);
    forall a, b | a in RowsIn(t', c) && b in RowsIn(t', c) && a != b
      ensures a.position != b.position
    {
      RowsAfter(env, fw, c, a);
      RowsAfter(env, fw, c, b);
      if a !in RowsIn(fw.table, c) {
        var d, i :| Slot(fw, d, i) && Feeds(d, c) && a == RecordedRow(fw, d, i);
        RecordedFacts(fw, d, i, c);
        if b in RowsIn(fw.table, c) {
          NewMeetsOld(fw, c, d, i, b);
        } else {
          var e, j :| Slot(fw, e, j) && Feeds(e, c) && b == RecordedRow(fw, e, j);
          RecordedFacts(fw, e, j, c);
          FeedsAreDistinct(fw, c, d, i);
          NewRowsApart(fw, c, d, i, e, j);
        }
      } else if b !in RowsIn(fw.table, c) {
        var e, j :| Slot(fw, e, j) && Feeds(e, c) && b == RecordedRow(fw, e, j);
        RecordedFacts(fw, e, j, c);
        NewMeetsOld(fw, c, e, j, a);
      }
    }
  }

  lemma FeedsAreDistinct(fw: Fw, c: Chain, d: Chain, i: nat)
    requires DistinctIn(fw.table, c) && (!OwnListing(fw, c) ==> DistinctIn(fw.table, PREROUTING))
    requires Slot(fw, d, i) && Feeds(d, c)
    ensures DistinctIn(fw.table, d)
  {
    hide DistinctIn, Candidate;
    assert Adoptable(fw, d) by { assert fw.live.At(d)[i] in fw.live.At(d); }
  }

  lemma SyncedIsWellKept(fw: Fw)
    requires InSync(fw)
    ensures WellKept(fw)
  {
  }

  lemma CollisionTies(env: Env, fw: Fw, c: Chain)
    requires InSync(fw) && Collides(fw, c)
    ensures !DistinctIn(Discovered(env, fw).table, c)
  {
    hide InSync, RowsIn, Discovered, Spot, Slot, RecordedRow;
    SyncedIsWellKept(fw);
    if MeetsDisabled(fw, c) {
      var i, row :| Slot(fw, c, i) && row in RowsIn(fw.table, c) && !row.enabled && row.position == Spot(fw, c, i);
      OldAndNew(env, fw, c, c, i, row);
    } else if MeetsForward(fw) {
      var i, row :| Slot(fw, PREROUTING, i) && row in RowsIn(fw.table, FORWARD)
                    && row.position == Spot(fw, PREROUTING, i);
      OldAndNew(env, fw, FORWARD, PREROUTING, i, row);
    } else {
      var i, j :| Slot(fw, PREROUTING, i) && Slot(fw, FORWARD, j)
                  && Spot(fw, PREROUTING, i) == Spot(fw, FORWARD, j);
      var a, b := RecordedRow(fw, PREROUTING, i), RecordedRow(fw, FORWARD, j);
      RecordedFacts(fw, PREROUTING, i, FORWARD);
      RecordedFacts(fw, FORWARD, j, FORWARD);
      RowsAfter(env, fw, FORWARD, a);
      RowsAfter(env, fw, FORWARD, b);
      assert a != b;
    }
  }

  lemma OldAndNew(env: Env, fw: Fw, c: Chain, d: Chain, i: nat, row: Row)
    requires WellKept(fw) && Slot(fw, d, i) && Feeds(d, c)
    requires row in RowsIn(fw.table, c) && row.position == Spot(fw, d, i)
    ensures !DistinctIn(Discovered(env, fw).table, c)
  {
    hide Discovered, Spot, Slot, RecordedRow;
    var mine := RecordedRow(fw, d, i);
    RecordedFacts(fw, d, i, c);
    RowsAfter(env, fw, c, mine);
    RowsAfter(env, fw, c, row);
    assert row != mine;
  }

  // ---------- without disabled rows ----------

  ghost predicate AllEnabled(t: Table, c: Chain) {
    forall r :: r in RowsIn(t, c) ==> r.enabled
  }

  /** While no row of a chain is disabled, discovery keeps the chain's positions pairwise distinct. */
  lemma DiscoveryKeepsDistinct(env: Env, fw: Fw, c: Chain)
    requires InSync(fw) && OwnListing(fw, c) && AllEnabled(fw.table, c) && DistinctIn(fw.table, c)
    ensures AllEnabled(Discovered(env, fw).table, c) && DistinctIn(Discovered(env, fw).table, c)
  {
    hide InSync, Spot, Discovered, Candidate;
    forall i: nat | Slot(fw, PREROUTING, i)
      ensures Adoptable(fw, PREROUTING)
    {
      assert fw.live.At(PREROUTING)[i] in fw.live.At(PREROUTING);
    }
    DiscoveryKeepsDistinctIff(env, fw, c);
    SyncedIsWellKept(fw);
    DiscoveredTable(env, fw);
    RowsAreEnabled(fw, Discovered(env, fw).table, c);
  }

  lemma TagsInChain(fw: Fw, c: Chain, i: nat)
    requires InSync(fw) && i < |fw.live.At(c)| && Known(fw.table, fw.live.At(c)[i])
    ensures fw.table[fw.live.At(c)[i].comment.id] in RowsIn(fw.table, c)
  {
    hide Ordered, PrintAll, Filter;
    var r := fw.live.At(c)[i];
    assert ChainInSync(fw.table, fw.live, c);
    assert r in Filter(Owned, fw.live.At(c));
    ShownIsRow(fw.table, c, r);
    OrderedFacts(fw.table, c);
  }

  lemma RowsAreEnabled(fw: Fw, t': Table, c: Chain)
    requires WellKept(fw) && AllEnabled(fw.table, c) && t' == Scanned(fw, 4).0.table
    ensures AllEnabled(t', c) && RowsIn(t', c) == EnabledIn(t', c)
  {
    hide Scanned;
    ScannedNew(fw, 4);
    forall r | r in RowsIn(t', c)
      ensures r.enabled
    {
      var id :| id in t' && c in ChainsFor(t'[id].rule) && t'[id] == r;
      if id in fw.table { assert r in RowsIn(fw.table, c); }
    }
  }

  // ---------- whole runs ----------

  ghost predicate DistinctAt(env: Env, fw: Fw, calls: seq<Call>, k: nat)
    requires k <= |calls|
  {
    DistinctPositions(Run(env, fw, calls[..k]).table)
  }

  /** The k-th call of the run is a discovery that meets a collision. */
  ghost predicate CollidesAt(env: Env, fw: Fw, calls: seq<Call>, k: nat)
    requires k < |calls|
  {
    calls[k].op.Discover? && exists c :: Collides(Run(env, fw, calls[..k]), c)
  }

  lemma StepKeepsDistinctIff(env: Env, fw: Fw, who: Option<string>, op: Op)
    requires InSync(fw) && DistinctPositions(fw.table)
    ensures DistinctPositions(Step(env, fw, who, op).fw.table)
            <==> !(op.Discover? && exists c :: Collides(fw, c))
  {
    hide InSync, Collides, DistinctIn, DiscoverAll, OwnListing;
    SyncedIsWellKept(fw);
    if op.Discover? {
      assert Step(env, fw, who, op).fw == Discovered(env, fw);
      forall c
        ensures DistinctIn(Discovered(env, fw).table, c) <==> !Collides(fw, c)
      {
        assert DistinctIn(fw.table, c) && DistinctIn(fw.table, PREROUTING);
        DiscoveryKeepsDistinctIff(env, fw, c);
      }
    } else {
      StepKeepsDistinct(env, fw, who, op);
    }
  }

  lemma IntactAt(env: Env, fw: Fw, calls: seq<Call>, k: nat)
    requires Intact(fw) && k <= |calls| && (Discovers(calls) ==> !Portless(fw))
    ensures InSync(Run(env, fw, calls[..k]))
  {
    hide InSync, CompleteTable, Portless, Run, Filter;
    if j :| 0 <= j < |calls[..k]| && calls[..k][j].op.Discover? { assert calls[j].op.Discover?; }
    RunKeepsMirror(env, fw, calls[..k]);
  }

  lemma DistinctNext(env: Env, fw: Fw, calls: seq<Call>, k: nat)
    requires Intact(fw) && k < |calls| && (Discovers(calls) ==> !Portless(fw)) && DistinctAt(env, fw, calls, k)
    ensures DistinctAt(env, fw, calls, k + 1) <==> !CollidesAt(env, fw, calls, k)
  {
    hide InSync, CompleteTable, Portless, Collides, DistinctPositions, Step, Discovers;
    IntactAt(env, fw, calls, k);
    assert calls[..k + 1][..k] == calls[..k] && calls[..k + 1][k] == calls[k];
    StepKeepsDistinctIff(env, Run(env, fw, calls[..k]), calls[k].who, calls[k].op);
  }

  lemma {:induction false} DistinctUpTo(env: Env, fw: Fw, calls: seq<Call>, n: nat)
    requires Intact(fw) && n <= |calls| && (Discovers(calls) ==> !Portless(fw)) && DistinctPositions(fw.table)
    requires forall k :: 0 <= k < n ==> !CollidesAt(env, fw, calls, k)
    ensures forall k :: 0 <= k <= n ==> DistinctAt(env, fw, calls, k)
  {
    hide Intact, Portless, CollidesAt, DistinctPositions, Discovers;
    if n == 0 {
      assert calls[..0] == [];
    } else {
      DistinctUpTo(env, fw, calls, n - 1);
      DistinctNext(env, fw, calls, n - 1);
    }
  }

  /** Over a whole run, discoveries included, the positions of every chain are pairwise distinct after every call if and
      only if no discovery of it meets a collision. */
  lemma RunKeepsDistinctIff(env: Env, fw: Fw, calls: seq<Call>)
    requires Intact(fw) && (Discovers(calls) ==> !Portless(fw)) && DistinctPositions(fw.table)
    ensures (forall k :: 0 <= k <= |calls| ==> DistinctAt(env, fw, calls, k))
            <==> (forall k :: 0 <= k < |calls| ==> !CollidesAt(env, fw, calls, k))
  {
    hide Intact, Portless, CollidesAt, DistinctAt, DistinctPositions, Discovers;
    if forall k :: 0 <= k <= |calls| ==> DistinctAt(env, fw, calls, k) {
      forall k | 0 <= k < |calls|
        ensures !CollidesAt(env, fw, calls, k)
      {
        DistinctNext(env, fw, calls, k);
      }
    }
    if forall k :: 0 <= k < |calls| ==> !CollidesAt(env, fw, calls, k) {
      DistinctUpTo(env, fw, calls, |calls|);
    }
  }

  /** As long as they are distinct, every drag of the run is refused and changes nothing, or moves its row, in the next
      state of the run, directly beside the target in every chain the two share. */
  lemma DistinctLands(env: Env, fw: Fw, calls: seq<Call>, k: nat)
    requires Intact(fw) && k < |calls| && (Discovers(calls) ==> !Portless(fw)) && DistinctAt(env, fw, calls, k)
    requires calls[k].op.Reorder?
    ensures var before, after := Run(env, fw, calls[..k]), Run(env, fw, calls[..k + 1]);
            var Reorder(id, target, side) := calls[k].op;
            if Refused(env, fw, calls, k) then after == before
            else
              && id in before.table && target in before.table && id in after.table && target in after.table
              && OthersSame(before.table, after.table, id)
              && forall c :: Shared(before.table, id, target, c) ==>
                   Beside(RowsIn(after.table, c), after.table[id], after.table[target], side)
  {
    hide CompleteTable, Portless, Run, CanReorder, Beside, Discovers, Step, RowsIn, GapAt;
    IntactAt(env, fw, calls, k);
    NextIs(env, fw, calls, k);
    var before := Run(env, fw, calls[..k]);
    var Reorder(id, target, side) := calls[k].op;
    SyncedIsWellKept(before);
    ReorderDoes(env, before, calls[k].who, id, target, side);
    if !Refused(env, fw, calls, k) {
      InTable(before.table, id, target);
      DistinctLeavesGap(before.table, id, target, side);
    }
  }

  /** The k-th call of the run is refused. */
  ghost predicate Refused(env: Env, fw: Fw, calls: seq<Call>, k: nat)
    requires k < |calls|
  {
    Step(env, Run(env, fw, calls[..k]), calls[k].who, calls[k].op).result == Rejected
  }

  lemma NextIs(env: Env, fw: Fw, calls: seq<Call>, k: nat)
    requires k < |calls|
    ensures Run(env, fw, calls[..k + 1]) == Step(env, Run(env, fw, calls[..k]), calls[k].who, calls[k].op).fw
  {
    hide Step;
    assert calls[..k + 1][..k] == calls[..k] && calls[..k + 1][k] == calls[k];
  }

  // ---------- a collision ----------

  /** With a disabled row it need not: a tracked row at 0.0, a disabled one at 1.0 and a rule made by hand behind the
      tracked one.  Discovery places the rule at 1.0 too, and enabling the disabled row completes the tie. */
  lemma DiscoveryCanTie(env: Env, a: Rule, b: Rule, h: LiveRule)
    requires a.Input? && b.Input? && b.verdict == ACCEPT && h.comment.NoComment? && h.target.Jump?
    ensures var x, y := Row(1, a, "", true, 0.0), Row(2, b, "", false, 1.0);
            var fw := Fw(map[1 := x, 2 := y], 3, LiveChains([], [Printed(x, INPUT), h], [], []));
            var after := Run(env, fw, [Call(None, Op.Discover), Call(None, Op.Toggle(2))]).table;
            && DistinctPositions(fw.table) && 2 in after && 3 in after && after[2].enabled && after[3].enabled
            && after[2].rule.Input? && after[3].rule.Input? && after[2].position == after[3].position
            && !DistinctIn(after, INPUT)
  {
    hide Printed, Adopt, Scanned, DiscoverAll;
    var x, y := Row(1, a, "", true, 0.0), Row(2, b, "", false, 1.0);
    var fw := Fw(map[1 := x, 2 := y], 3, LiveChains([], [Printed(x, INPUT), h], [], []));
    var calls := [Call(None, Op.Discover), Call(None, Op.Toggle(2))];
    PrintedTag(x, INPUT);
    TieScanned(fw, x, h);
    assert calls[..1][..0] == [] && calls[..1] == [calls[0]];
    var mid := Discovered(env, fw);
    assert Run(env, fw, calls[..1]) == mid;
    DiscoveredTable(env, fw);
    assert Run(env, fw, calls) == Step(env, mid, None, Op.Toggle(2)).fw;
    var after := Run(env, fw, calls).table;
    TogglesOn(env, mid, 2);
    assert after == mid.table[2 := y.(enabled := true)];
    assert after[2] in RowsIn(after, INPUT) && after[3] in RowsIn(after, INPUT) && after[2].id != after[3].id;
  }

  lemma DiscoveredTable(env: Env, fw: Fw)
    ensures Discovered(env, fw).table == Scanned(fw, 4).0.table
  {
  }

  lemma TogglesOn(env: Env, fw: Fw, id: int)
    requires id in fw.table && !fw.table[id].enabled && fw.table[id].rule.Input? && fw.table[id].rule.verdict == ACCEPT
    ensures ToggleRule(env, fw, None, id).fw.table == fw.table[id := fw.table[id].(enabled := true)]
  {
    hide Rebuilt, Reached, Stops;
  }

  lemma TwoSlots(t: Table, c: Chain, specs: seq<LiveRule>, firstId: int)
    requires |specs| == 2 && Known(t, specs[0]) && Candidate(t, c, specs[1])
    ensures AdoptedRows(t, c, specs, 2, firstId) == [AdoptedRow(t, c, specs, 1, firstId)]
    ensures AdoptedRow(t, c, specs, 1, firstId).position == t[specs[0].comment.id].position + 1.0
  {
    hide Adopt;
    var a := AnchorsOf(t, specs);
    assert a[0].Some? && a[1].None? && RunStart(a, 1) == 1 && RunEnd(a, 1) == 2;
    assert AdoptedRows(t, c, specs, 0, firstId) == [];
    assert AdoptedRows(t, c, specs, 1, firstId) == [];
  }

  lemma TieScanned(fw: Fw, x: Row, h: LiveRule)
    requires WellKept(fw) && fw.nextId == 3 && 1 in fw.table && fw.table[1] == x && x.position == 0.0 && 2 in fw.table
    requires fw.live == LiveChains([], [Printed(x, INPUT), h], [], []) && !x.rule.ClientBlock?
    requires h.comment.NoComment? && h.target.Jump?
    ensures var t' := Scanned(fw, 4).0.table;
            && 2 in t' && t'[2] == fw.table[2]
            && 3 in t' && t'[3].id == 3 && t'[3].rule.Input? && t'[3].enabled && t'[3].position == 1.0
  {
    hide Printed, AdoptedRows, Inserted, PositionAt, TouchedBy;
    var t, specs := fw.table, fw.live.At(INPUT);
    PrintedTag(x, INPUT);
    assert Known(t, specs[0]) && Candidate(t, INPUT, specs[1]);
    NothingAdopted(fw, 0);
    assert Scanned(fw, 1).0.nextId == 3;
    ScannedLive(fw, 1, 1);
    hide Scanned;
    TwoSlots(t, INPUT, specs, 3);
    var z := AdoptedRow(t, INPUT, specs, 1, 3);
    ScannedNew(fw, 4);
    ScansKeepWell(fw, 4);
    ScannedRows(fw, 4, 1);
    assert ScanRows(t, INPUT, Scanned(fw, 1).0) == [z];
    assert z in Elements([z]);
    assert z in EnabledIn(Scanned(fw, 4).0.table, INPUT);
  }
}
