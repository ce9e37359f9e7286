/** Adopting hand-made rules leaves the meaning of a chain unchanged, exactly when there is room for them; and doing it
    twice is doing it once. */
module Adoption {
  import opened Wrappers
  import opened Sequences
  import opened Rules
  import opened Lockout
  import opened Discovery
  import opened Firewall
  import opened Mirror

  /** What a rule does to packets: everything but its comment. */
  function Meaning(r: LiveRule): LiveRule {
    r.(comment := NoComment)
  }

  /** Shapes whose every matcher the application keeps. */
  predicate InGrammar(c: Chain, r: LiveRule) {
    && r.extra == [] && r.src != Some("")
    && match c
       case FORWARD =>
         r.inIface.None? && r.outIface.None? && r.protocol != Some("all") && r.dst != Some("") && r.dport != Some("")
       case INPUT =>
         r.dst.None? && r.inIface.None? && r.outIface.None? && r.protocol != Some("all") && r.dport != Some("")
       case PREROUTING =>
         && r.dst.None? && r.src.None? && r.outIface.None? && r.inIface != Some("") && r.protocol.Some? && r.dport.Some?
         && (r.target.DnatTo? ==> Given(r.target.port).Some?)
       case POSTROUTING =>
         r.dst.None? && r.inIface.None? && r.protocol.None? && r.dport.None? && r.outIface != Some("")
  }

  /** Printing what was adopted gives back the rule that was read. */
  lemma AdoptedPrintsBack(c: Chain, r: LiveRule, row: Row)
    requires InGrammar(c, r) && Adopt(c, r) == Some(row.rule)
    ensures Meaning(Printed(row, c)) == Meaning(r)
  {
  }

  /** Rules that discovery neither tracks nor adopts. */
  predicate LeftAlone(t: Table, c: Chain, r: LiveRule) {
    !Owned(r) && !Candidate(t, c, r)
  }

  /** The other rules: tagged ones and candidates. */
  predicate TakenUp(t: Table, c: Chain, r: LiveRule) {
    Owned(r) || Candidate(t, c, r)
  }

  function IsLeftAlone(t: Table, c: Chain): LiveRule -> bool {
    r => LeftAlone(t, c, r)
  }

  function IsTakenUp(t: Table, c: Chain): LiveRule -> bool {
    r => TakenUp(t, c, r)
  }

  // ---------- tagged rules of a synced chain ----------

  /** Later tags name later rows. */
  ghost predicate TagsClimb(t: Table, specs: seq<LiveRule>) {
    forall i, j :: 0 <= i < j < |specs| && Known(t, specs[i]) && Known(t, specs[j]) ==>
      Less(t[specs[i].comment.id], t[specs[j].comment.id])
  }

  /** What a caller can check before the call: no rule to adopt stands in a run between two rows of equal position. */
  predicate HasRoom(t: Table, c: Chain, specs: seq<LiveRule>) {
    forall i :: 0 <= i < |specs| && Candidate(t, c, specs[i]) ==> Roomy(AnchorsOf(t, specs), i)
  }

  lemma ClimbingAnchors(t: Table, specs: seq<LiveRule>)
    requires TagsClimb(t, specs)
    ensures WeakAnchors(AnchorsOf(t, specs))
  {
    forall i, j | 0 <= i < j < |specs| && Known(t, specs[i]) && Known(t, specs[j])
      ensures AnchorsOf(t, specs)[i].value <= AnchorsOf(t, specs)[j].value
    {
      assert Less(t[specs[i].comment.id], t[specs[j].comment.id]);
    }
  }

  /** In a synced chain each tag names its row, and the tags climb with the rows. */
  lemma SyncedTags(fw: Fw, c: Chain)
    requires InSync(fw)
    ensures forall r :: r in fw.live.At(c) && Owned(r) ==> Known(fw.table, r) && r == Printed(fw.table[r.comment.id], c)
    ensures TagsClimb(fw.table, fw.live.At(c))
    ensures forall row :: NamedBelow(fw.table, fw.live.At(c), |fw.live.At(c)|, row) <==> row in EnabledIn(fw.table, c)
  {
    hide Printed, Ordered, PrintAll, Filter, EnabledIn;
    var t, specs := fw.table, fw.live.At(c);
    assert ChainInSync(t, fw.live, c);
    forall r | r in specs && Owned(r)
      ensures Known(t, r) && r == Printed(t[r.comment.id], c) && t[r.comment.id] in Ordered(t, c)
    {
      assert r in Filter(Owned, specs);
      ShownIsRow(t, c, r);
    }
    forall i, j | 0 <= i < j < |specs| && Known(t, specs[i]) && Known(t, specs[j])
      ensures Less(t[specs[i].comment.id], t[specs[j].comment.id])
    {
      TagsInOrder(t, c, specs, i, j);
    }
    OrderedFacts(t, c);
    forall row
      ensures NamedBelow(t, specs, |specs|, row) <==> row in EnabledIn(t, c)
    {
      assert row in Ordered(t, c) <==> row in Elements(Ordered(t, c));
      if row in Ordered(t, c) {
        RowIsShown(t, row.id, c);
        assert Printed(row, c) in Filter(Owned, specs);
        PrintedTag(row, c);
        var i :| 0 <= i < |specs| && specs[i] == Printed(row, c);
        assert Known(t, specs[i]) && row == t[specs[i].comment.id];
      }
      if NamedBelow(t, specs, |specs|, row) {
        var i :| 0 <= i < |specs| && Known(t, specs[i]) && row == t[specs[i].comment.id];
        assert specs[i] in specs;
      }
    }
  }

  lemma TagsInOrder(t: Table, c: Chain, specs: seq<LiveRule>, i: nat, j: nat)
    requires Keyed(t) && Filter(Owned, specs) == PrintAll(Ordered(t, c), c)
    requires i < j < |specs| && Known(t, specs[i]) && Known(t, specs[j])
    ensures Less(t[specs[i].comment.id], t[specs[j].comment.id])
  {
    hide Ordered, Filter, PrintAll, Less;
    OrderedFacts(t, c);
    var k, l := FilterOrder(Owned, specs, i, j);
    ShownAt(t, c, k);
    ShownAt(t, c, l);
  }

  lemma ShownAt(t: Table, c: Chain, k: nat)
    requires Keyed(t) && k < |PrintAll(Ordered(t, c), c)|
    ensures k < |Ordered(t, c)| && PrintAll(Ordered(t, c), c)[k].comment == Tracked(Ordered(t, c)[k].id)
    ensures Ordered(t, c)[k].id in t && t[Ordered(t, c)[k].id] == Ordered(t, c)[k]
  {
    hide Ordered, Printed, Less;
    OrderedFacts(t, c);
    assert Ordered(t, c)[k] in Ordered(t, c);
    PrintedTag(Ordered(t, c)[k], c);
  }

  // ---------- tracked and adopted rows of one chain, in live order ----------

  ghost function Merged(t: Table, c: Chain, specs: seq<LiveRule>, n: nat, firstId: int): (rows: seq<Row>)
    requires n <= |specs|
  {
    if n == 0 then []
    else
      var before, r := Merged(t, c, specs, n - 1, firstId), specs[n - 1];
      if Known(t, r) then before + [t[r.comment.id]]
      else if Candidate(t, c, r) then
        before + [AdoptedRow(t, c, specs, n - 1, firstId + |AdoptedRows(t, c, specs, n - 1, firstId)|)]
      else before
  }

  ghost predicate NamedBelow(t: Table, specs: seq<LiveRule>, n: nat, row: Row)
    requires n <= |specs|
  {
    exists i :: 0 <= i < n && Known(t, specs[i]) && row == t[specs[i].comment.id]
  }

  lemma {:induction false} MergedMembers(t: Table, c: Chain, specs: seq<LiveRule>, n: nat, firstId: int)
    requires n <= |specs|
    ensures forall row :: row in Merged(t, c, specs, n, firstId)
                     <==> NamedBelow(t, specs, n, row) || row in AdoptedRows(t, c, specs, n, firstId)
  {
    hide AdoptedRow;
    if n > 0 {
      MergedMembers(t, c, specs, n - 1, firstId);
      var r := specs[n - 1];
      forall row
        ensures NamedBelow(t, specs, n, row)
           <==> NamedBelow(t, specs, n - 1, row) || (Known(t, r) && row == t[r.comment.id])
      {
        if NamedBelow(t, specs, n - 1, row) {
          var i :| 0 <= i < n - 1 && Known(t, specs[i]) && row == t[specs[i].comment.id];
          assert 0 <= i < n;
        }
      }
    }
  }

  /** `row` is what slot i holds after adoption. */
  ghost predicate HeldAt(t: Table, c: Chain, specs: seq<LiveRule>, firstId: int, i: nat, row: Row)
    requires i < |specs|
  {
    if Known(t, specs[i]) then row == t[specs[i].comment.id]
    else Candidate(t, c, specs[i]) && row.position == Place(AnchorsOf(t, specs), i) && row.id >= firstId
  }

  /** Rows of later slots are later rows. */
  lemma HeldInOrder(t: Table, c: Chain, specs: seq<LiveRule>, firstId: int, i: nat, j: nat, x: Row, y: Row)
    requires TagsClimb(t, specs) && HasRoom(t, c, specs) && i < j < |specs|
    requires HeldAt(t, c, specs, firstId, i, x) && HeldAt(t, c, specs, firstId, j, y)
    ensures Less(x, y)
  {
    hide Candidate, PositionAt, Roomy;
    if !(Known(t, specs[i]) && Known(t, specs[j])) {
      ClimbingAnchors(t, specs);
      PlacesClimb(AnchorsOf(t, specs), i, j);
    }
  }

  /** The merged rows of the first n slots: slot n adds at most one, at the end. */
  lemma MergedLast(t: Table, c: Chain, specs: seq<LiveRule>, n: nat, firstId: int)
    requires 0 < n <= |specs|
    ensures var before, rows := Merged(t, c, specs, n - 1, firstId), Merged(t, c, specs, n, firstId);
            if Known(t, specs[n - 1]) || Candidate(t, c, specs[n - 1]) then
              |rows| == |before| + 1 && rows == before + [rows[|rows| - 1]]
              && HeldAt(t, c, specs, firstId, n - 1, rows[|rows| - 1])
            else rows == before
  {
    hide PositionAt, Adopt;
  }

  lemma {:induction false} MergedAscends(t: Table, c: Chain, specs: seq<LiveRule>, n: nat, firstId: int)
    requires n <= |specs| && TagsClimb(t, specs) && HasRoom(t, c, specs)
    ensures Ascending(Merged(t, c, specs, n, firstId))
    ensures forall row :: row in Merged(t, c, specs, n, firstId) ==>
              exists i :: 0 <= i < n && HeldAt(t, c, specs, firstId, i, row)
  {
    hide Merged, HeldAt, TagsClimb, HasRoom, Candidate, Known;
    if n == 0 {
      MergedNone(t, c, specs, firstId);
    } else {
      MergedAscends(t, c, specs, n - 1, firstId);
      var before, rows := Merged(t, c, specs, n - 1, firstId), Merged(t, c, specs, n, firstId);
      MergedLast(t, c, specs, n, firstId);
      if rows != before {
        var last := rows[|rows| - 1];
        forall row | row in before
          ensures Less(row, last)
        {
          var i :| 0 <= i < n - 1 && HeldAt(t, c, specs, firstId, i, row);
          HeldInOrder(t, c, specs, firstId, i, n - 1, row, last);
        }
      }
    }
  }

  lemma MergedNone(t: Table, c: Chain, specs: seq<LiveRule>, firstId: int)
    ensures Merged(t, c, specs, 0, firstId) == []
  {
  }

  /** Slot i's row stands at the length of what is merged before it. */
  lemma {:induction false} MergedAt(t: Table, c: Chain, specs: seq<LiveRule>, i: nat, n: nat, firstId: int)
    requires i < n <= |specs| && (Known(t, specs[i]) || Candidate(t, c, specs[i]))
    ensures var rows, k := Merged(t, c, specs, n, firstId), |Merged(t, c, specs, i, firstId)|;
            k < |rows| && HeldAt(t, c, specs, firstId, i, rows[k])
    ensures |Merged(t, c, specs, i + 1, firstId)| <= |Merged(t, c, specs, n, firstId)|
    ensures |Merged(t, c, specs, i + 1, firstId)| == |Merged(t, c, specs, i, firstId)| + 1
  {
    hide Merged, HeldAt, Candidate, Known;
    MergedLast(t, c, specs, n, firstId);
    if i + 1 < n {
      MergedAt(t, c, specs, i, n - 1, firstId);
    }
  }

  lemma {:induction false} MergedGrows(t: Table, c: Chain, specs: seq<LiveRule>, m: nat, n: nat, firstId: int)
    requires m <= n <= |specs|
    ensures |Merged(t, c, specs, m, firstId)| <= |Merged(t, c, specs, n, firstId)|
  {
    hide Merged, HeldAt, Candidate, Known;
    if m < n {
      MergedLast(t, c, specs, n, firstId);
      MergedGrows(t, c, specs, m, n - 1, firstId);
    }
  }

  /** Without room, a new row has the position of the tracked row behind it and a younger id. */
  lemma MergedNeedsRoom(t: Table, c: Chain, specs: seq<LiveRule>, firstId: int)
    requires TagsClimb(t, specs) && !HasRoom(t, c, specs) && forall id :: id in t ==> t[id].id < firstId
    ensures !Ascending(Merged(t, c, specs, |specs|, firstId))
  {
    hide Candidate, PositionAt, Merged, Ascending, HasRoom, TagsClimb, Known, HeldAt;
    var n := |specs|;
    var i, e := CrampedPair(t, c, specs);
    MergedAt(t, c, specs, i, n, firstId);
    MergedAt(t, c, specs, e, n, firstId);
    MergedGrows(t, c, specs, i + 1, e, firstId);
    var rows := Merged(t, c, specs, n, firstId);
    var k, l := |Merged(t, c, specs, i, firstId)|, |Merged(t, c, specs, e, firstId)|;
    HeldTie(t, c, specs, firstId, i, e, rows[k], rows[l]);
    NotAscending(rows, k, l);
  }

  /** Without room some rule to adopt gets the position of the tracked row behind it. */
  lemma CrampedPair(t: Table, c: Chain, specs: seq<LiveRule>) returns (i: nat, e: nat)
    requires TagsClimb(t, specs) && !HasRoom(t, c, specs)
    ensures i < e < |specs| && Candidate(t, c, specs[i]) && !Known(t, specs[i]) && Known(t, specs[e])
    ensures Place(AnchorsOf(t, specs), i) == Place(AnchorsOf(t, specs), e)
  {
    hide Candidate, PositionAt, TagsClimb;
    i := CrampedSlot(t, c, specs);
    ClimbingAnchors(t, specs);
    PlaceOfTie(AnchorsOf(t, specs), i);
    e := RunEnd(AnchorsOf(t, specs), i);
  }

  lemma HeldTie(t: Table, c: Chain, specs: seq<LiveRule>, firstId: int, i: nat, e: nat, x: Row, y: Row)
    requires i < |specs| && e < |specs| && !Known(t, specs[i]) && Known(t, specs[e])
    requires HeldAt(t, c, specs, firstId, i, x) && HeldAt(t, c, specs, firstId, e, y)
    requires Place(AnchorsOf(t, specs), i) == Place(AnchorsOf(t, specs), e)
    requires forall id :: id in t ==> t[id].id < firstId
    ensures !Less(x, y)
  {
    hide Candidate, PositionAt;
  }

  lemma NotAscending(rows: seq<Row>, k: nat, l: nat)
    requires k < l < |rows| && !Less(rows[k], rows[l])
    ensures !Ascending(rows)
  {
  }

  lemma CandidateIsNew(t: Table, c: Chain, r: LiveRule)
    requires Candidate(t, c, r)
    ensures !Known(t, r)
  {
  }

  lemma CrampedSlot(t: Table, c: Chain, specs: seq<LiveRule>) returns (i: nat)
    requires !HasRoom(t, c, specs)
    ensures i < |specs| && Candidate(t, c, specs[i]) && !Known(t, specs[i])
    ensures AnchorsOf(t, specs)[i].None? && !Roomy(AnchorsOf(t, specs), i)
  {
    i :| i < |specs| && Candidate(t, c, specs[i]) && !Roomy(AnchorsOf(t, specs), i);
  }

  /** Printed back, the merged rows mean what the taken-up rules meant. */
  lemma {:induction false} MergedMeaning(t: Table, c: Chain, specs: seq<LiveRule>, n: nat, firstId: int)
    requires n <= |specs|
    requires forall r :: r in specs && Owned(r) ==> Known(t, r) && r == Printed(t[r.comment.id], c)
    requires forall r :: r in specs && Candidate(t, c, r) ==> InGrammar(c, r)
    ensures Map(Meaning, PrintAll(Merged(t, c, specs, n, firstId), c))
            == Map(Meaning, Filter(IsTakenUp(t, c), specs[..n]))
  {
    if n > 0 {
      MergedMeaning(t, c, specs, n - 1, firstId);
      MergedMeaningStep(t, c, specs, n, firstId);
    }
  }

  lemma MergedMeaningStep(t: Table, c: Chain, specs: seq<LiveRule>, n: nat, firstId: int)
    requires 0 < n <= |specs|
    requires forall r :: r in specs && Owned(r) ==> Known(t, r) && r == Printed(t[r.comment.id], c)
    requires forall r :: r in specs && Candidate(t, c, r) ==> InGrammar(c, r)
    requires Map(Meaning, PrintAll(Merged(t, c, specs, n - 1, firstId), c))
          == Map(Meaning, Filter(IsTakenUp(t, c), specs[..n - 1]))
    ensures Map(Meaning, PrintAll(Merged(t, c, specs, n, firstId), c))
            == Map(Meaning, Filter(IsTakenUp(t, c), specs[..n]))
  {
    hide Merged, TakenUp, Candidate, Meaning, PrintAll, Map, InGrammar, Owned, Printed, Known;
    var r := specs[n - 1];
    assert specs[..n] == specs[..n - 1] + [r];
    FilterConcat(IsTakenUp(t, c), specs[..n - 1], [r]);
    var before, rows := Merged(t, c, specs, n - 1, firstId), Merged(t, c, specs, n, firstId);
    MergedStep(t, c, specs, n, firstId);
    if TakenUp(t, c, r) {
      MeaningGrows(before, rows[|rows| - 1], c, Filter(IsTakenUp(t, c), specs[..n - 1]), r);
    } else {
      assert Filter(IsTakenUp(t, c), [r]) == [];
    }
  }

  lemma MergedStep(t: Table, c: Chain, specs: seq<LiveRule>, n: nat, firstId: int)
    requires 0 < n <= |specs|
    requires var r := specs[n - 1]; Owned(r) ==> Known(t, r) && r == Printed(t[r.comment.id], c)
    requires var r := specs[n - 1]; Candidate(t, c, r) ==> InGrammar(c, r)
    ensures var before, rows := Merged(t, c, specs, n - 1, firstId), Merged(t, c, specs, n, firstId);
            if TakenUp(t, c, specs[n - 1]) then
              && |rows| > 0 && rows == before + [rows[|rows| - 1]]
              && Meaning(Printed(rows[|rows| - 1], c)) == Meaning(specs[n - 1])
            else rows == before
  {
    hide PositionAt, Printed;
    var r, rows := specs[n - 1], Merged(t, c, specs, n, firstId);
    if Candidate(t, c, r) {
      AdoptedPrintsBack(c, r, rows[|rows| - 1]);
    }
  }

  lemma MeaningGrows(rows: seq<Row>, row: Row, c: Chain, kept: seq<LiveRule>, r: LiveRule)
    requires Map(Meaning, PrintAll(rows, c)) == Map(Meaning, kept)
    requires Meaning(Printed(row, c)) == Meaning(r)
    ensures Map(Meaning, PrintAll(rows + [row], c)) == Map(Meaning, kept + [r])
  {
    PrintAllConcat(rows, [row], c);
    assert PrintAll([row], c) == [Printed(row, c)];
    MapConcat(Meaning, PrintAll(rows, c), [Printed(row, c)]);
    MapConcat(Meaning, kept, [r]);
  }

  // ---------- the table after all four scans ----------

  ghost predicate Adoptable(fw: Fw, c: Chain) {
    exists r :: r in fw.live.At(c) && Candidate(fw.table, c, r)
  }

  /** The chain's rows come from its own listing: an adopted port forward also adds a FORWARD half. */
  ghost predicate OwnListing(fw: Fw, c: Chain) {
    c == FORWARD ==> !Adoptable(fw, PREROUTING)
  }

  lemma {:induction false} AdoptedElsewhere(t: Table, d: Chain, specs: seq<LiveRule>, n: nat, firstId: int)
    requires n <= |specs|
    ensures forall row, c :: row in AdoptedRows(t, d, specs, n, firstId) && c in ChainsFor(row.rule) ==>
              c == d || (c == FORWARD && d == PREROUTING)
  {
    hide PositionAt, Adopt, Candidate;
    if n > 0 {
      AdoptedElsewhere(t, d, specs, n - 1, firstId);
      if Candidate(t, d, specs[n - 1]) {
        CandidateChains(t, d, specs, n - 1, firstId + |AdoptedRows(t, d, specs, n - 1, firstId)|);
      }
    }
  }

  lemma CandidateChains(t: Table, d: Chain, specs: seq<LiveRule>, i: nat, id: int)
    requires i < |specs| && Candidate(t, d, specs[i])
    ensures forall c :: c in ChainsFor(AdoptedRow(t, d, specs, i, id).rule) ==>
              c == d || (c == FORWARD && d == PREROUTING)
  {
    hide PositionAt;
  }

  lemma ScanAddsRows(t0: Table, d: Chain, fw: Fw, c: Chain)
    requires WellKept(fw) && (c == FORWARD && d == PREROUTING ==> ScanRows(t0, d, fw) == [])
    ensures EnabledIn(Scan(t0, d, fw).table, c)
         == EnabledIn(fw.table, c) + if d == c then Elements(ScanRows(t0, d, fw)) else {}
  {
    hide Inserted, Filter, Staying, EnabledIn, ChainsFor;
    var rows := ScanRows(t0, d, fw);
    ScanRowsFeed(t0, d, fw, c);
    forall x
      ensures x in EnabledIn(Inserted(fw.table, rows), c) <==> x in EnabledIn(fw.table, c) || (d == c && x in rows)
    {
      InsertedEnabled(fw.table, rows, fw.nextId, c, x);
    }
  }

  /** The rows of one scan are in force, and take part in the chain exactly if it was the one scanned. */
  lemma ScanRowsFeed(t0: Table, d: Chain, fw: Fw, c: Chain)
    requires c == FORWARD && d == PREROUTING ==> ScanRows(t0, d, fw) == []
    ensures var rows := ScanRows(t0, d, fw);
            forall k :: 0 <= k < |rows| ==>
              rows[k].id == fw.nextId + k && rows[k].enabled && (c in ChainsFor(rows[k].rule) <==> d == c)
  {
    hide AdoptedRows, ChainsFor;
    AdoptedElsewhere(t0, d, fw.live.At(d), |fw.live.At(d)|, fw.nextId);
    var rows := ScanRows(t0, d, fw);
    forall k | 0 <= k < |rows|
      ensures c in ChainsFor(rows[k].rule) <==> d == c
    {
      assert rows[k] in rows && d in ChainsFor(rows[k].rule);
    }
  }

  lemma InsertedEnabled(t: Table, rows: seq<Row>, firstId: int, c: Chain, x: Row)
    requires Keyed(t) && (forall id :: id in t ==> id < firstId)
    requires forall k :: 0 <= k < |rows| ==> rows[k].id == firstId + k && rows[k].enabled
    ensures x in EnabledIn(Inserted(t, rows), c) <==> x in EnabledIn(t, c) || (x in rows && c in ChainsFor(x.rule))
  {
    hide Inserted, ChainsFor;
    InsertedFacts(t, rows, firstId);
    var t' := Inserted(t, rows);
    if x in rows {
      var k :| 0 <= k < |rows| && rows[k] == x;
      assert t'[firstId + k] == x;
    }
    if x in EnabledIn(t, c) {
      assert t'[x.id] == x;
    }
    if x in EnabledIn(t', c) && x.id !in t {
      assert t'[firstId + (x.id - firstId)] == rows[x.id - firstId];
    }
  }

  /** The rows of chain TARGETS[k] after n scans. */
  lemma {:induction false} ScannedRows(fw: Fw, n: nat, k: nat)
    requires WellKept(fw) && n <= 4 && k < 4 && OwnListing(fw, TARGETS[k])
    ensures EnabledIn(Scanned(fw, n).0.table, TARGETS[k])
         == EnabledIn(fw.table, TARGETS[k])
          + if k < n then Elements(ScanRows(fw.table, TARGETS[k], Scanned(fw, k).0)) else {}
  {
    hide AdoptedRows, Inserted, TouchedBy, Scan;
    if n > 0 {
      ScannedRows(fw, n - 1, k);
      ScansKeepWell(fw, n - 1);
      NothingAdopted(fw, n - 1);
      ScanAddsRows(fw.table, TARGETS[n - 1], Scanned(fw, n - 1).0, TARGETS[k]);
      assert k != n - 1 ==> TARGETS[k] != TARGETS[n - 1];
    }
  }

  /** A listing without candidates yields no rows. */
  lemma NothingAdopted(fw: Fw, k: nat)
    requires k < 4
    ensures ScanRows(fw.table, TARGETS[k], Scanned(fw, k).0) == [] <==> !Adoptable(fw, TARGETS[k])
  {
    hide Candidate, AdoptedRows, Scanned;
    ScannedLive(fw, k, k);
    var specs := fw.live.At(TARGETS[k]);
    NoRowsNoCandidates(fw.table, TARGETS[k], specs, |specs|, Scanned(fw, k).0.nextId);
    if r :| r in specs && Candidate(fw.table, TARGETS[k], r) {
      var i :| 0 <= i < |specs| && specs[i] == r;
    }
  }

  /** After discovery the enabled rows of a chain stand in live order, tracked and adopted merged, if and only if
      there was room for every rule to adopt. */
  lemma DiscoveredOrderIff(fw: Fw, k: nat)
    requires InSync(fw) && k < 4 && OwnListing(fw, TARGETS[k])
    ensures var c := TARGETS[k]; var specs := fw.live.At(c);
            Ordered(Scanned(fw, 4).0.table, c) == Merged(fw.table, c, specs, |specs|, Scanned(fw, k).0.nextId)
            <==> HasRoom(fw.table, c, specs)
  {
    hide Scanned, AdoptedRows, Merged, Ordered, NamedBelow, HasRoom, Ascending, TagsClimb, OwnListing;
    var c := TARGETS[k];
    var t, specs := fw.table, fw.live.At(c);
    var t', firstId := Scanned(fw, 4).0.table, Scanned(fw, k).0.nextId;
    SyncedTags(fw, c);
    ScansKeepWell(fw, 4);
    ScansKeepWell(fw, k);
    if HasRoom(t, c, specs) {
      MergedAscends(t, c, specs, |specs|, firstId);
      MergedMembers(t, c, specs, |specs|, firstId);
      ScannedRows(fw, 4, k);
      ScannedLive(fw, k, k);
      var merged := Merged(t, c, specs, |specs|, firstId);
      forall r
        ensures r in merged <==> r in EnabledIn(t', c)
      {
        assert r in Elements(ScanRows(t, c, Scanned(fw, k).0)) <==> r in ScanRows(t, c, Scanned(fw, k).0);
      }
      OrderedIs(t', c, merged);
    } else {
      OldIdsBelow(fw, k);
      MergedNeedsRoom(t, c, specs, firstId);
      OrderedFacts(t', c);
    }
  }

  lemma OldIdsBelow(fw: Fw, k: nat)
    requires WellKept(fw) && k <= 4
    ensures forall id :: id in fw.table ==> fw.table[id].id < Scanned(fw, k).0.nextId
  {
    hide Scanned;
    ScansKeepWell(fw, k);
    ScannedNew(fw, k);
  }

  // ---------- the main result ----------

  /** After discovery a chain with room means: what was left alone, in order, and then everything else, in order.  A
      chain that holds nothing to adopt is not even rebuilt, whatever else is live. */
  lemma DiscoveredMeaning(env: Env, fw: Fw, c: Chain)
    requires Intact(fw) && OwnListing(fw, c) && HasRoom(fw.table, c, fw.live.At(c))
    requires Adoptable(fw, c) ==> !Portless(fw)
    requires forall r :: r in fw.live.At(c) && Candidate(fw.table, c, r) ==> InGrammar(c, r)
    ensures Map(Meaning, Discovered(env, fw).live.At(c))
         == if Adoptable(fw, c) then
              Map(Meaning, Filter(IsLeftAlone(fw.table, c), fw.live.At(c)))
            + Map(Meaning, Filter(IsTakenUp(fw.table, c), fw.live.At(c)))
            else Map(Meaning, fw.live.At(c))
  {
    hide Scanned, AdoptedRows, Rebuilt, Merged, HasRoom, Reached, Stuck, PrintableFront, CompleteTable, Portless,
      InGrammar, Ordered, OwnListing;
    var k := IndexOf(TARGETS, c);
    var t, specs := fw.table, fw.live.At(c);
    var (after, touched) := Scanned(fw, 4);
    TouchedIffAdoptable(fw, k);
    DiscoveredLive(fw, c);
    if Adoptable(fw, c) {
      DiscoveredChain(env, fw, c);
      DiscoveredOrderIff(fw, k);
      SyncedTags(fw, c);
      MergedMeaning(t, c, specs, |specs|, Scanned(fw, k).0.nextId);
      assert specs[..|specs|] == specs;
      FilterTwice(NotOwned, Staying(t, c), IsLeftAlone(t, c), specs);
      MapConcat(Meaning, Filter(IsLeftAlone(t, c), specs), PrintAll(Ordered(after.table, c), c));
    } else {
      NothingToAdopt(env, fw, c);
    }
  }

  /** A touched chain, when every row can be printed. */
  lemma DiscoveredChain(env: Env, fw: Fw, c: Chain)
    requires Intact(fw) && !Portless(fw) && c in Scanned(fw, 4).1
    ensures Discovered(env, fw).live.At(c)
         == Filter(NotOwned, Filter(Staying(fw.table, c), fw.live.At(c)))
           + PrintAll(Ordered(Scanned(fw, 4).0.table, c), c)
  {
    hide Scanned, Reached, PrintableFront, CompleteTable, Portless, Ordered;
    var (after, touched) := Scanned(fw, 4);
    ScansKeepWell(fw, 4);
    ScannedComplete(fw, 4);
    CompleteReaches(after.table, Visited(env, touched));
    DiscoveredLive(fw, c);
    assert !Stuck(after.table, c);
  }

  lemma {:induction false} ReachedAmong(t: Table, order: seq<Chain>)
    ensures Reached(t, order) <= Elements(order)
  {
    hide Stuck;
    if order != [] {
      ReachedAmong(t, order[1..]);
      assert order == [order[0]] + order[1..];
    }
  }

  lemma UntouchedChain(env: Env, fw: Fw, c: Chain)
    requires c !in Scanned(fw, 4).1
    ensures Discovered(env, fw).live.At(c) == Scanned(fw, 4).0.live.At(c)
  {
    hide Scanned, Reached, RebuiltChain;
    ReachedAmong(Scanned(fw, 4).0.table, Visited(env, Scanned(fw, 4).1));
  }

  /** A chain that holds nothing to adopt, and gains no row from another, is left exactly as it is. */
  lemma NothingToAdopt(env: Env, fw: Fw, c: Chain)
    requires OwnListing(fw, c) && !Adoptable(fw, c)
    ensures Discovered(env, fw).live.At(c) == fw.live.At(c)
  {
    hide Scanned, DiscoverAll, Candidate;
    TouchedIffAdoptable(fw, IndexOf(TARGETS, c));
    UntouchedChain(env, fw, c);
    DiscoveredLive(fw, c);
    FilterAll(Staying(fw.table, c), fw.live.At(c));
  }

  lemma TouchedIffAdoptable(fw: Fw, k: nat)
    requires k < 4 && OwnListing(fw, TARGETS[k])
    ensures TARGETS[k] in Scanned(fw, 4).1 <==> Adoptable(fw, TARGETS[k])
  {
    TouchedAfter(fw, 4, k);
  }

  lemma {:induction false} TouchedAfter(fw: Fw, n: nat, k: nat)
    requires n <= 4 && k < 4 && OwnListing(fw, TARGETS[k])
    ensures TARGETS[k] in Scanned(fw, n).1 <==> k < n && Adoptable(fw, TARGETS[k])
  {
    hide Scan, TouchedBy, AdoptedRows, Adoptable;
    if n > 0 {
      TouchedAfter(fw, n - 1, k);
      var d, before := TARGETS[n - 1], Scanned(fw, n - 1).0;
      var specs, c := before.live.At(d), TARGETS[k];
      var rows := ScanRows(fw.table, d, before);
      TouchedFacts(rows, c);
      AdoptedElsewhere(fw.table, d, specs, |specs|, before.nextId);
      NothingAdopted(fw, n - 1);
      assert forall m :: 0 <= m < |rows| ==> rows[m] in rows && d in ChainsFor(rows[m].rule);
      assert rows != [] ==> d in ChainsFor(rows[0].rule);
      assert (d == PREROUTING <==> n == 3) && (c == FORWARD <==> k == 0);
      assert k != n - 1 ==> TARGETS[k] != TARGETS[n - 1];
    }
  }

  /** Adoption preserves meaning: with room for every rule to adopt, and the rules left alone in front, discovery leaves
      the sequence of matches and targets of a chain exactly as it was. */
  lemma AdoptionPreservesMeaning(env: Env, fw: Fw, c: Chain, ahead: seq<LiveRule>, rest: seq<LiveRule>)
    requires Intact(fw) && OwnListing(fw, c) && HasRoom(fw.table, c, fw.live.At(c))
    requires Adoptable(fw, c) ==> !Portless(fw)
    requires forall r :: r in fw.live.At(c) && Candidate(fw.table, c, r) ==> InGrammar(c, r)
    requires fw.live.At(c) == ahead + rest
    requires (forall r :: r in ahead ==> LeftAlone(fw.table, c, r))
             && (forall r :: r in rest ==> TakenUp(fw.table, c, r))
    ensures Map(Meaning, Discovered(env, fw).live.At(c)) == Map(Meaning, fw.live.At(c))
  {
    hide Discovered, LeftAlone, TakenUp, InGrammar, HasRoom, Intact, Portless, OwnListing;
    var t := fw.table;
    DiscoveredMeaning(env, fw, c);
    forall r | r in fw.live.At(c) { OneSide(t, c, r); }
    FilterSides(IsLeftAlone(t, c), IsTakenUp(t, c), ahead, rest);
    MapConcat(Meaning, ahead, rest);
  }

  lemma OneSide(t: Table, c: Chain, r: LiveRule)
    ensures LeftAlone(t, c, r) <==> !TakenUp(t, c, r)
  {
  }

  /** The first rule that matches a packet decides; `matches` reads everything but the comment. */
  function FirstHit(matches: LiveRule -> bool, rules: seq<LiveRule>): Option<Target> {
    if rules == [] then None
    else if matches(Meaning(rules[0])) then Some(rules[0].target)
    else FirstHit(matches, rules[1..])
  }

  lemma {:induction false} MeaningDecides(matches: LiveRule -> bool, a: seq<LiveRule>, b: seq<LiveRule>)
    requires Map(Meaning, a) == Map(Meaning, b)
    ensures FirstHit(matches, a) == FirstHit(matches, b)
  {
    assert |a| == |Map(Meaning, a)| == |b|;
    if a != [] {
      assert Map(Meaning, a)[0] == Map(Meaning, b)[0];
      forall i | 0 <= i < |a| - 1
        ensures Meaning(a[1..][i]) == Meaning(b[1..][i])
      {
        assert Map(Meaning, a)[i + 1] == Map(Meaning, b)[i + 1];
      }
      assert Map(Meaning, a[1..]) == Map(Meaning, b[1..]);
      MeaningDecides(matches, a[1..], b[1..]);
    }
  }

  /** So every packet keeps its verdict. */
  lemma EveryPacketKeepsItsVerdict(
      env: Env, fw: Fw, c: Chain, ahead: seq<LiveRule>, rest: seq<LiveRule>, matches: LiveRule -> bool)
    requires Intact(fw) && OwnListing(fw, c) && HasRoom(fw.table, c, fw.live.At(c))
    requires Adoptable(fw, c) ==> !Portless(fw)
    requires forall r :: r in fw.live.At(c) && Candidate(fw.table, c, r) ==> InGrammar(c, r)
    requires fw.live.At(c) == ahead + rest
    requires (forall r :: r in ahead ==> LeftAlone(fw.table, c, r))
             && (forall r :: r in rest ==> TakenUp(fw.table, c, r))
    ensures FirstHit(matches, Discovered(env, fw).live.At(c)) == FirstHit(matches, fw.live.At(c))
  {
    hide Discovered, LeftAlone, TakenUp, InGrammar, HasRoom, Intact, Portless, OwnListing;
    AdoptionPreservesMeaning(env, fw, c, ahead, rest);
    MeaningDecides(matches, Discovered(env, fw).live.At(c), fw.live.At(c));
  }

  /** Wherever the rules left alone stand: a packet keeps its verdict if and only if none of them matches it, or the
      first of them that does decides as the chain did. */
  lemma VerdictKeptIff(env: Env, fw: Fw, c: Chain, matches: LiveRule -> bool)
    requires Intact(fw) && OwnListing(fw, c) && HasRoom(fw.table, c, fw.live.At(c))
    requires Adoptable(fw, c) && !Portless(fw)
    requires forall r :: r in fw.live.At(c) && Candidate(fw.table, c, r) ==> InGrammar(c, r)
    ensures var alone := FirstHit(matches, Filter(IsLeftAlone(fw.table, c), fw.live.At(c)));
            FirstHit(matches, Discovered(env, fw).live.At(c)) == FirstHit(matches, fw.live.At(c))
            <==> alone.None? || alone == FirstHit(matches, fw.live.At(c))
  {
    hide Discovered, LeftAlone, TakenUp, InGrammar, HasRoom, Intact, Portless, OwnListing, Adoptable, Filter;
    var t, rules := fw.table, fw.live.At(c);
    var alone, taken := Filter(IsLeftAlone(t, c), rules), Filter(IsTakenUp(t, c), rules);
    DiscoveredMeaning(env, fw, c);
    MapConcat(Meaning, alone, taken);
    MeaningDecides(matches, Discovered(env, fw).live.At(c), alone + taken);
    FirstHitConcat(matches, alone, taken);
    forall r | r in rules { OneSide(t, c, r); }
    if FirstHit(matches, alone).None? {
      FirstHitElsewhere(matches, IsLeftAlone(t, c), IsTakenUp(t, c), rules);
    }
  }

  lemma {:induction false} FirstHitConcat(matches: LiveRule -> bool, a: seq<LiveRule>, b: seq<LiveRule>)
    ensures FirstHit(matches, a + b)
            == if FirstHit(matches, a).Some? then FirstHit(matches, a) else FirstHit(matches, b)
  {
    if a == [] {
      assert a + b == b;
    } else {
      assert (a + b)[0] == a[0] && (a + b)[1..] == a[1..] + b;
      FirstHitConcat(matches, a[1..], b);
    }
  }

  lemma {:induction false} FirstHitElsewhere(
      matches: LiveRule -> bool, p: LiveRule -> bool, q: LiveRule -> bool, rules: seq<LiveRule>)
    requires FirstHit(matches, Filter(p, rules)).None? && forall r :: r in rules ==> (p(r) <==> !q(r))
    ensures FirstHit(matches, rules) == FirstHit(matches, Filter(q, rules))
  {
    if rules != [] {
      assert p(rules[0]) ==> Filter(p, rules)[0] == rules[0] && Filter(p, rules)[1..] == Filter(p, rules[1..]);
      FirstHitElsewhere(matches, p, q, rules[1..]);
    }
  }

  // ---------- without room ----------

  /** INPUT shows two rows of equal position with a hand-made rule between them, and nothing else. */
  ghost predicate Tied(fw: Fw, x: Row, h: LiveRule, y: Row) {
    && Intact(fw) && !Portless(fw)
    && Ordered(fw.table, INPUT) == [x, y] && x.position == y.position
    && fw.live.At(INPUT) == [Printed(x, INPUT), h, Printed(y, INPUT)] && Candidate(fw.table, INPUT, h)
  }

  /** One rule to adopt between two tracked ones. */
  lemma ThreeSlots(t: Table, c: Chain, specs: seq<LiveRule>, firstId: int)
    requires |specs| == 3 && Known(t, specs[0]) && Candidate(t, c, specs[1]) && Known(t, specs[2])
    ensures AdoptedRows(t, c, specs, 3, firstId) == [AdoptedRow(t, c, specs, 1, firstId)]
  {
    hide Adopt, PositionAt, Filter;
    assert AdoptedRows(t, c, specs, 0, firstId) == [];
    assert AdoptedRows(t, c, specs, 1, firstId) == [];
    assert AdoptedRows(t, c, specs, 2, firstId) == [AdoptedRow(t, c, specs, 1, firstId)];
  }

  lemma ThreeStay(t: Table, c: Chain, specs: seq<LiveRule>)
    requires |specs| == 3 && Known(t, specs[0]) && Candidate(t, c, specs[1]) && Known(t, specs[2])
    ensures Filter(Staying(t, c), specs) == [specs[0], specs[2]]
  {
    hide Adopt;
    assert specs == [specs[0]] + ([specs[1]] + [specs[2]]);
    FilterConcat(Staying(t, c), [specs[0]], [specs[1]] + [specs[2]]);
    FilterConcat(Staying(t, c), [specs[1]], [specs[2]]);
  }

  lemma RunOfOne(a: Anchors)
    requires |a| == 3 && a[0].Some? && a[1].None? && a[2].Some?
    ensures RunStart(a, 1) == 1 && RunEnd(a, 1) == 2
  {
  }

  lemma TiedSlots(fw: Fw, x: Row, h: LiveRule, y: Row)
    requires Tied(fw, x, h, y)
    ensures var specs := fw.live.At(INPUT);
            && Known(fw.table, specs[0]) && fw.table[specs[0].comment.id] == x
            && Known(fw.table, specs[2]) && fw.table[specs[2].comment.id] == y
            && !x.rule.ClientBlock? && !y.rule.ClientBlock? && Less(x, y) && y.id in fw.table && fw.table[y.id] == y
  {
    hide Printed, Candidate, Portless, CompleteTable;
    OrderedFacts(fw.table, INPUT);
    assert x in [x, y] && y in [x, y];
    PrintedTag(x, INPUT);
    PrintedTag(y, INPUT);
    assert Less([x, y][0], [x, y][1]);
  }

  /** The new row gets the common position, and with it the last place. */
  lemma TiedOrder(fw: Fw, x: Row, h: LiveRule, y: Row) returns (z: Row)
    requires Tied(fw, x, h, y)
    ensures Ordered(Scanned(fw, 4).0.table, INPUT) == [x, y, z]
    ensures Filter(Staying(fw.table, INPUT), fw.live.At(INPUT)) == [Printed(x, INPUT), Printed(y, INPUT)]
    ensures !HasRoom(fw.table, INPUT, fw.live.At(INPUT))
  {
    hide Adopt, Candidate, Portless, Printed, Scanned, CompleteTable, Ordered;
    var t, specs := fw.table, fw.live.At(INPUT);
    TiedSlots(fw, x, h, y);
    var firstId := Scanned(fw, 1).0.nextId;
    ThreeSlots(t, INPUT, specs, firstId);
    ThreeStay(t, INPUT, specs);
    var a := AnchorsOf(t, specs);
    z := AdoptedRow(t, INPUT, specs, 1, firstId);
    assert a[0] == Some(x.position) && a[2] == Some(y.position);
    CandidateIsNew(t, INPUT, h);
    RunOfOne(a);
    assert !Roomy(a, 1);
    assert z.position == x.position;
    OldIdsBelow(fw, 1);
    assert z.id == firstId;
    TiedRows(fw, x, h, y, z);
  }

  lemma TiedRows(fw: Fw, x: Row, h: LiveRule, y: Row, z: Row)
    requires Tied(fw, x, h, y) && AdoptedRows(fw.table, INPUT, fw.live.At(INPUT), 3, Scanned(fw, 1).0.nextId) == [z]
    requires Less(x, y) && Less(y, z)
    ensures Ordered(Scanned(fw, 4).0.table, INPUT) == [x, y, z]
  {
    hide Candidate, Portless, Printed, Scanned, CompleteTable, AdoptedRows, Ordered, EnabledIn, Less, PrintAll, Filter;
    ScannedLive(fw, 1, 1);
    assert ScanRows(fw.table, INPUT, Scanned(fw, 1).0) == [z];
    ScannedRows(fw, 4, 1);
    ScansKeepWell(fw, 4);
    OrderedFacts(fw.table, INPUT);
    ListsThree(Scanned(fw, 4).0.table, EnabledIn(fw.table, INPUT), x, y, z);
  }

  lemma ListsThree(t: Table, rows: set<Row>, x: Row, y: Row, z: Row)
    requires Keyed(t) && rows == Elements([x, y]) && EnabledIn(t, INPUT) == rows + Elements([z])
    requires Less(x, y) && Less(y, z)
    ensures Ordered(t, INPUT) == [x, y, z]
  {
    assert Elements([x, y, z]) == Elements([x, y]) + Elements([z]);
    EnabledDistinct(t, INPUT);
    SortedIs(EnabledIn(t, INPUT), [x, y, z]);
  }

  lemma TiedTouched(fw: Fw, x: Row, h: LiveRule, y: Row)
    requires Tied(fw, x, h, y)
    ensures INPUT in Scanned(fw, 4).1
  {
    hide Candidate, Intact, Portless, Printed, Scanned, Ordered;
    assert fw.live.At(INPUT)[1] == h && h in fw.live.At(INPUT);
    TouchedIffAdoptable(fw, 1);
  }

  lemma TiedDiscovered(env: Env, fw: Fw, x: Row, h: LiveRule, y: Row) returns (z: Row)
    requires Tied(fw, x, h, y)
    ensures Discovered(env, fw).live.At(INPUT) == [Printed(x, INPUT), Printed(y, INPUT), Printed(z, INPUT)]
  {
    hide Candidate, Portless, Printed, Scanned, CompleteTable, Ordered, Discovered, Filter, PrintAll, InSync;
    z := TiedOrder(fw, x, h, y);
    TiedSlots(fw, x, h, y);
    TiedTouched(fw, x, h, y);
    DiscoveredChain(env, fw, INPUT);
    OnlyPrints(x, y, z);
  }

  lemma OnlyPrints(x: Row, y: Row, z: Row)
    requires !x.rule.ClientBlock? && !y.rule.ClientBlock?
    ensures Filter(NotOwned, [Printed(x, INPUT), Printed(y, INPUT)]) + PrintAll([x, y, z], INPUT)
         == [Printed(x, INPUT), Printed(y, INPUT), Printed(z, INPUT)]
  {
    hide Printed;
    PrintedOwned(x, INPUT);
    PrintedOwned(y, INPUT);
    FilterNone(NotOwned, [Printed(x, INPUT), Printed(y, INPUT)]);
    assert PrintAll([x, y, z], INPUT) == [Printed(x, INPUT), Printed(y, INPUT), Printed(z, INPUT)];
    assert [] + PrintAll([x, y, z], INPUT) == PrintAll([x, y, z], INPUT);
  }

  lemma SecondHits(matches: LiveRule -> bool, a: LiveRule, b: LiveRule, c: LiveRule)
    requires !matches(Meaning(a)) && matches(Meaning(b))
    ensures FirstHit(matches, [a, b, c]) == Some(b.target)
  {
    assert [a, b, c][1..] == [b, c];
  }

  /** Without room the adopted rule moves behind the row after it: packets that matched it first now match that row. */
  lemma TieMovesTheAdoptedRule(env: Env, fw: Fw, x: Row, h: LiveRule, y: Row, matches: LiveRule -> bool)
    requires Tied(fw, x, h, y)
    requires !matches(Meaning(Printed(x, INPUT))) && matches(Meaning(h)) && matches(Meaning(Printed(y, INPUT)))
    ensures !HasRoom(fw.table, INPUT, fw.live.At(INPUT))
    ensures FirstHit(matches, fw.live.At(INPUT)) == Some(h.target)
    ensures FirstHit(matches, Discovered(env, fw).live.At(INPUT)) == Some(Printed(y, INPUT).target)
  {
    hide HasRoom, FirstHit, Discovered, Meaning, Printed, Intact, Candidate, Portless;
    var z := TiedOrder(fw, x, h, y);
    z := TiedDiscovered(env, fw, x, h, y);
    SecondHits(matches, Printed(x, INPUT), h, Printed(y, INPUT));
    SecondHits(matches, Printed(x, INPUT), Printed(y, INPUT), Printed(z, INPUT));
  }

  /** Such a state: an accepting row for `a` and a catch-all DROP, both at 0.0, and a rule accepting `b` made by hand
      between them.  Discovery turns its ACCEPT for packets from `b` into DROP. */
  lemma TieExists(env: Env, a: string, b: string)
    requires a != "" && b != "" && a != b
    ensures var x := Row(1, Input(ACCEPT, "all", Some(a), None), "", true, 0.0);
            var y := Row(2, Input(DROP, "all", None, None), "", true, 0.0);
            var h := PLAIN.(src := Some(b), target := Target.Jump(ACCEPT));
            var fw := Fw(map[1 := x, 2 := y], 3, LiveChains([], [Printed(x, INPUT), h, Printed(y, INPUT)], [], []));
            var fromB := (r: LiveRule) => r.src.None? || r.src == Some(b);
            && Tied(fw, x, h, y)
            && FirstHit(fromB, fw.live.At(INPUT)) == Some(Target.Jump(ACCEPT))
            && FirstHit(fromB, Discovered(env, fw).live.At(INPUT)) == Some(Target.Jump(DROP))
  {
    var x := Row(1, Input(ACCEPT, "all", Some(a), None), "", true, 0.0);
    var y := Row(2, Input(DROP, "all", None, None), "", true, 0.0);
    var h := PLAIN.(src := Some(b), target := Target.Jump(ACCEPT));
    var fw := Fw(map[1 := x, 2 := y], 3, LiveChains([], [Printed(x, INPUT), h, Printed(y, INPUT)], [], []));
    hide Discovered, FirstHit;
    TiedIsIntact(fw, x, h, y);
    TieMovesTheAdoptedRule(env, fw, x, h, y, (r: LiveRule) => r.src.None? || r.src == Some(b));
  }

  lemma TiedTable(x: Row, y: Row)
    requires x.id == 1 && y.id == 2 && x.rule.Input? && y.rule.Input? && x.enabled && y.enabled
             && x.position == y.position
    ensures Ordered(map[1 := x, 2 := y], INPUT) == [x, y]
  {
    hide Ordered;
    OrderedIs(map[1 := x, 2 := y], INPUT, [x, y]);
  }

  lemma TiedIsIntact(fw: Fw, x: Row, h: LiveRule, y: Row)
    requires x.id == 1 && y.id == 2 && x.rule.Input? && y.rule.Input? && x.enabled && y.enabled
             && x.position == y.position
    requires h.comment.NoComment? && h.target.Jump?
    requires fw == Fw(map[1 := x, 2 := y], 3, LiveChains([], [Printed(x, INPUT), h, Printed(y, INPUT)], [], []))
    ensures Tied(fw, x, h, y)
  {
    hide Printed;
    TiedTable(x, y);
    PrintedTag(x, INPUT);
    PrintedTag(y, INPUT);
    TiedShows(x, h, y);
    hide Ordered, PrintAll, Filter;
    forall c
      ensures ChainInSync(fw.table, fw.live, c)
    {
      if c != INPUT {
        UnusedIsEmpty(fw.table, c);
        FilterNone(Owned, []);
      }
    }
  }

  lemma TiedShows(x: Row, h: LiveRule, y: Row)
    requires x.rule.Input? && y.rule.Input? && h.comment.NoComment?
    ensures Filter(Owned, [Printed(x, INPUT), h, Printed(y, INPUT)]) == PrintAll([x, y], INPUT)
  {
    hide Printed;
    PrintedOwned(x, INPUT);
    PrintedOwned(y, INPUT);
    TwoOfThree(Printed(x, INPUT), h, Printed(y, INPUT));
    assert PrintAll([x, y], INPUT) == [Printed(x, INPUT), Printed(y, INPUT)];
  }

  lemma TwoOfThree(p: LiveRule, h: LiveRule, q: LiveRule)
    requires Owned(p) && !Owned(h) && Owned(q)
    ensures Filter(Owned, [p, h, q]) == [p, q]
  {
    hide Owned;
    assert [p, h, q] == [p] + ([h] + [q]);
    FilterConcat(Owned, [p], [h] + [q]);
    FilterConcat(Owned, [h], [q]);
    FilterAll(Owned, [p]);
    FilterAll(Owned, [q]);
    FilterNone(Owned, [h]);
  }

  // ---------- a second discovery ----------

  lemma ScanOfNothing(fw: Fw, c: Chain)
    requires forall r :: r in fw.live.At(c) ==> !Candidate(fw.table, c, r)
    ensures Scan(fw.table, c, fw) == fw && TouchedBy(ScanRows(fw.table, c, fw)) == {}
  {
    hide Candidate, Adopt;
    NoRowsNoCandidates(fw.table, c, fw.live.At(c), |fw.live.At(c)|, fw.nextId);
    FilterAll(Staying(fw.table, c), fw.live.At(c));
    SameChains(fw.live.Put(c, fw.live.At(c)), fw.live);
  }

  lemma {:induction false} NothingToScan(fw: Fw, n: nat)
    requires n <= 4
    requires forall c, r :: r in fw.live.At(c) ==> !Candidate(fw.table, c, r)
    ensures Scanned(fw, n).0 == fw && Scanned(fw, n).1 == {}
  {
    hide Candidate, Scan, ScanRows, TouchedBy;
    if n > 0 {
      NothingToScan(fw, n - 1);
      ScanOfNothing(fw, TARGETS[n - 1]);
    }
  }

  /** After one discovery no chain holds anything to adopt, whatever was there before and wherever a rebuild may have
      stopped: a second call imports nothing and changes nothing. */
  lemma DiscoveryIsIdempotent(env: Env, fw: Fw)
    requires WellKept(fw)
    ensures forall c, r :: r in Discovered(env, fw).live.At(c) ==> !Candidate(Discovered(env, fw).table, c, r)
    ensures Discovered(env, Discovered(env, fw)) == Discovered(env, fw)
  {
    hide Scanned, Candidate, Reached, Adopt;
    var after := Discovered(env, fw);
    forall c, r | r in after.live.At(c)
      ensures !Candidate(after.table, c, r)
    {
      NothingLeftToAdopt(env, fw, c, r);
    }
    NothingToScan(after, 4);
    ListsNothing(Visited(env, {}));
    assert Reached(after.table, []) == {} by { ReachedAmong(after.table, []); }
    SameChains(Rebuilt(after.table, after.live, {}), after.live);
  }

  lemma ListsNothing(order: seq<Chain>)
    requires Lists(order, {})
    ensures order == []
  {
    HeadIsElement(order);
  }

  lemma NothingLeftToAdopt(env: Env, fw: Fw, c: Chain, r: LiveRule)
    requires WellKept(fw) && r in Discovered(env, fw).live.At(c)
    ensures !Candidate(Discovered(env, fw).table, c, r)
  {
    hide Scanned, Reached, PrintAll, Filter, Ordered, PrintableFront, Adopt;
    var (after, touched) := Scanned(fw, 4);
    ScansKeepWell(fw, 4);
    ScannedNew(fw, 4);
    DiscoveredLive(fw, c);
    if r in Filter(Staying(fw.table, c), fw.live.At(c)) {
      assert !Candidate(fw.table, c, r);
    } else {
      FrontIsShown(after.table, c, r);
    }
  }

  lemma FrontIsShown(t: Table, c: Chain, r: LiveRule)
    requires Keyed(t)
    ensures r in PrintAll(PrintableFront(Ordered(t, c), c), c) ==> Known(t, r)
  {
    hide Ordered, Printed, PrintableFront;
    var rows := PrintableFront(Ordered(t, c), c);
    if r in PrintAll(rows, c) {
      var k :| 0 <= k < |rows| && PrintAll(rows, c)[k] == r;
      assert PrintAll(Ordered(t, c), c)[k] == r;
      ShownIsRow(t, c, r);
    }
  }
}
