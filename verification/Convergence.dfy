/** Whatever the interleaving, once all workers are done it is known exactly which chains show their enabled rows in
    order. */
module Convergence {
  import opened Wrappers
  import opened Sequences
  import opened Rules
  import opened Discovery
  import opened Firewall
  import opened Mirror
  import opened Workers
  import opened Claims

  // ---------- the invariant ----------

  predicate Holds(pc: Pc) {
    match pc
    case Idle => false
    case Adding(_, _) => false
    case Waiting(_, keep) => keep
    case _ => true
  }

  /** Will this worker read the rows of chain c again before it is done? */
  predicate WillRead(pc: Pc, c: Chain) {
    match pc
    case Idle => false
    case Adding(_, _) => false
    case Waiting(todo, _) => c in todo
    case Entered(_, todo, _) => c in todo
    case Deleting(_, _, _, todo, _) => c in todo
    case Appending(d, _, _, todo, _) => c in todo && c != d
    case Scanning(_, _, touched) => c in touched
    case Adopting(_, _, _, _, touched) => c in touched
    case Recorded(_, _, _, _, touched, row) => c in touched || c in ChainsFor(row.rule)
  }

  ghost predicate PendingBut(s: System, c: Chain, w: nat) {
    exists v :: 0 <= v < |s.pcs| && v != w && WillRead(s.pcs[v], c)
  }

  ghost predicate Pending(s: System, c: Chain) {
    exists v :: 0 <= v < |s.pcs| && WillRead(s.pcs[v], c)
  }

  /** The claim about chain c, with respect to table t. */
  ghost predicate ClaimAt(s: System, t: Table, c: Chain) {
    Claim(t, Filter(Owned, s.live.At(c)), PrintAll(Unfinished(s, c), c), PendingIds(s, c), c in s.crossed, c)
  }

  /** What the chain still holds of the listing, and behind it what adds have appended since. */
  ghost predicate Leftover(s: System, c: Chain, specs: seq<LiveRule>, late: seq<LiveRule>) {
    && Filter(Owned, s.live.At(c)) == Filter(Owned, specs) + late
    && (late == [] <==> c !in s.late) && forall r :: r in late ==> InForce(s.table, c, r)
  }

  /** What a worker's own program point guarantees. */
  ghost predicate Local(s: System, w: nat)
    requires w < |s.pcs|
  {
    match s.pcs[w]
    case Adding(row, halves) =>
      && row.id in s.table && s.table[row.id].rule == row.rule && s.table[row.id].enabled && !row.rule.ClientBlock?
      && (forall c :: c in halves ==> c in ChainsFor(row.rule))
      && (forall i, j :: 0 <= i < j < |halves| ==> halves[i] != halves[j])
    case Entered(c, todo, _) => c in todo
    case Deleting(c, specs, i, todo, _) =>
      c in todo && i <= |specs| && exists late :: Leftover(s, c, specs[i..], late)
    case Appending(c, rows, k, todo, _) =>
      c in todo && k <= |rows| && forall r :: r in rows ==> !r.rule.ClientBlock?
    case Adopting(n, _, specs, i, _) => n < 4 && i <= |specs|
    case Recorded(n, known, specs, i, touched, row) =>
      && n < 4 && i < |specs| && TARGETS[n] in ChainsFor(row.rule) && row.id < s.nextId
      && (row.id in s.table ==> s.table[row.id].rule == row.rule)
      && (forall v :: 0 <= v < |s.pcs| && s.pcs[v].Adding? ==> s.pcs[v].row.id != row.id)
      && forall c :: c in s.covered ==> c in touched || PendingBut(s, c, w) || ClaimAt(s, s.table - {row.id}, c)
    case _ => true
  }

  ghost predicate Settled(s: System, c: Chain) {
    Pending(s, c) || ClaimAt(s, s.table, c)
  }

  ghost predicate AddsApart(s: System) {
    forall u, v :: 0 <= u < v < |s.pcs| && s.pcs[u].Adding? && s.pcs[v].Adding? ==> s.pcs[u].row.id != s.pcs[v].row.id
  }

  ghost predicate Inv(s: System) {
    && WellKept(Fw(s.table, s.nextId, s.live))
    && (forall w :: 0 <= w < |s.pcs| ==> (Holds(s.pcs[w]) <==> s.lock == Some(w)))
    && (forall w :: 0 <= w < |s.pcs| ==> Local(s, w))
    && AddsApart(s)
    && (forall c :: c in s.covered ==> Settled(s, c))
  }

  // ---------- what a step leaves alone ----------

  ghost predicate OnlyWorker(s: System, s': System, w: nat) {
    |s'.pcs| == |s.pcs| && w < |s.pcs| && s'.pcs == s.pcs[w := s'.pcs[w]]
  }

  lemma SameClaim(s: System, s': System, t: Table, c: Chain)
    requires Filter(Owned, s'.live.At(c)) == Filter(Owned, s.live.At(c))
    requires Unfinished(s', c) == Unfinished(s, c) && PendingIds(s', c) == PendingIds(s, c)
    requires c in s'.crossed <==> c in s.crossed
    ensures ClaimAt(s', t, c) <==> ClaimAt(s, t, c)
  {
  }

  /** A step of a worker that neither adds nor appends to the chain. */
  lemma QuietWorker(s: System, s': System, w: nat, c: Chain)
    requires OnlyWorker(s, s', w) && !s.pcs[w].Adding? && !s'.pcs[w].Adding?
    requires !(s.pcs[w].Appending? && s.pcs[w].c == c) && !(s'.pcs[w].Appending? && s'.pcs[w].c == c)
    requires s'.lock == s.lock || (s.lock in {None, Some(w)} && s'.lock in {None, Some(w)})
    ensures Unfinished(s', c) == Unfinished(s, c) && PendingIds(s', c) == PendingIds(s, c)
  {
    forall v | 0 <= v < |s.pcs| && v != w
      ensures s'.pcs[v] == s.pcs[v]
    {
    }
    forall id
      ensures id in PendingIds(s', c) <==> id in PendingIds(s, c)
    {
      if id in PendingIds(s, c) {
        var v :| 0 <= v < |s.pcs| && s.pcs[v].Adding? && c in s.pcs[v].halves && s.pcs[v].row.id == id;
        assert s'.pcs[v].Adding?;
      }
      if id in PendingIds(s', c) {
        var v :| 0 <= v < |s'.pcs| && s'.pcs[v].Adding? && c in s'.pcs[v].halves && s'.pcs[v].row.id == id;
        assert s.pcs[v].Adding?;
      }
    }
  }

  /** What is pending is in the table, under the id sequence, and is not the row a discovery is about to confirm. */
  lemma PendingFacts(s: System, c: Chain)
    requires Inv(s)
    ensures PendingOk(s.table, PendingIds(s, c), c)
    ensures forall p :: p in PendingIds(s, c) ==> p < s.nextId
    ensures forall w :: 0 <= w < |s.pcs| && s.pcs[w].Recorded? ==>
              s.pcs[w].row.id !in PendingIds(s, c) && PendingOk(s.table - {s.pcs[w].row.id}, PendingIds(s, c), c)
  {
    hide ClaimAt, Leftover;
    forall p | p in PendingIds(s, c)
      ensures p in s.table && s.table[p].enabled && c in ChainsFor(s.table[p].rule) && p < s.nextId
      ensures forall w :: 0 <= w < |s.pcs| && s.pcs[w].Recorded? ==> s.pcs[w].row.id != p
    {
      var v :| 0 <= v < |s.pcs| && s.pcs[v].Adding? && c in s.pcs[v].halves && s.pcs[v].row.id == p;
      assert Local(s, v);
      forall w | 0 <= w < |s.pcs| && s.pcs[w].Recorded?
        ensures s.pcs[w].row.id != p
      {
        assert Local(s, w);
      }
    }
  }

  lemma PendingGrows(s: System, s': System, w: nat)
    requires OnlyWorker(s, s', w)
    requires forall c :: WillRead(s.pcs[w], c) ==> WillRead(s'.pcs[w], c)
    ensures forall c :: Pending(s, c) ==> Pending(s', c)
    ensures forall c, v :: PendingBut(s, c, v) ==> PendingBut(s', c, v)
    ensures forall c, v :: v != w && WillRead(s'.pcs[w], c) ==> PendingBut(s', c, v)
    ensures forall c :: WillRead(s'.pcs[w], c) ==> Pending(s', c)
  {
    forall c | true
      ensures Pending(s, c) ==> Pending(s', c)
      ensures forall v :: PendingBut(s, c, v) ==> PendingBut(s', c, v)
      ensures forall v :: v != w && WillRead(s'.pcs[w], c) ==> PendingBut(s', c, v)
      ensures WillRead(s'.pcs[w], c) ==> Pending(s', c)
    {
      PendingGrowsAt(s, s', w, c);
    }
  }

  lemma PendingGrowsAt(s: System, s': System, w: nat, c: Chain)
    requires OnlyWorker(s, s', w)
    requires WillRead(s.pcs[w], c) ==> WillRead(s'.pcs[w], c)
    ensures Pending(s, c) ==> Pending(s', c)
    ensures forall v :: PendingBut(s, c, v) ==> PendingBut(s', c, v)
    ensures PendingBut(s, c, w) ==> Pending(s', c)
    ensures forall v :: v != w && WillRead(s'.pcs[w], c) ==> PendingBut(s', c, v)
    ensures WillRead(s'.pcs[w], c) ==> Pending(s', c)
  {
    forall v, u | 0 <= u < |s.pcs| && u != v && WillRead(s.pcs[u], c)
      ensures PendingBut(s', c, v)
    {
      assert WillRead(s'.pcs[u], c);
    }
    if u :| 0 <= u < |s.pcs| && WillRead(s.pcs[u], c) {
      assert WillRead(s'.pcs[u], c);
    }
  }

  /** The lock changes hands only between nobody and the worker that steps. */
  ghost predicate LockMoves(s: System, s': System, w: nat)
    requires w < |s'.pcs|
  {
    && (s'.lock == s.lock || (s.lock in {None, Some(w)} && s'.lock in {None, Some(w)}))
    && (Holds(s'.pcs[w]) <==> s'.lock == Some(w))
  }

  /** A step between the bodies of two calls, or into or out of the lock. */
  lemma QuietStep(s: System, s': System, w: nat)
    requires Inv(s) && OnlyWorker(s, s', w) && LockMoves(s, s', w)
    requires s.pcs[w].Idle? || s.pcs[w].Waiting?
    requires s'.pcs[w].Idle? || s'.pcs[w].Waiting? || s'.pcs[w].Entered? || s'.pcs[w].Scanning?
    requires s'.table == s.table && s'.nextId == s.nextId && s'.live == s.live
    requires s'.late == s.late && s'.crossed == s.crossed
    requires forall c :: WillRead(s.pcs[w], c) ==> WillRead(s'.pcs[w], c)
    requires Local(s', w) && forall c :: c in s'.covered && c !in s.covered ==> WillRead(s'.pcs[w], c)
    ensures Inv(s')
  {
    hide ClaimAt, WillRead, Pending, PendingBut, Leftover, Unfinished, PendingIds;
    PendingGrows(s, s', w);
    forall c, t
      ensures ClaimAt(s', t, c) <==> ClaimAt(s, t, c)
    {
      QuietWorker(s, s', w, c);
      SameClaim(s, s', t, c);
    }
    forall v | 0 <= v < |s'.pcs|
      ensures Local(s', v)
    {
      assert v != w ==> s'.pcs[v] == s.pcs[v];
      assert Local(s, v);
      if v != w && s.pcs[v].Deleting? {
        SameLeftover(s, s', s.pcs[v].c, s.pcs[v].specs[s.pcs[v].i..]);
      }
      if v != w && s.pcs[v].Recorded? {
        RecordedStays(s, s', w, v);
      }
    }
    forall c | c in s'.covered
      ensures Settled(s', c)
    {
      assert c in s.covered ==> Settled(s, c);
    }
  }

  lemma SameLeftover(s: System, s': System, c: Chain, specs: seq<LiveRule>)
    requires Filter(Owned, s'.live.At(c)) == Filter(Owned, s.live.At(c)) && (c in s'.late <==> c in s.late)
    requires forall r :: InForce(s.table, c, r) ==> InForce(s'.table, c, r)
    requires exists late :: Leftover(s, c, specs, late)
    ensures exists late :: Leftover(s', c, specs, late)
  {
    var late :| Leftover(s, c, specs, late);
    assert Leftover(s', c, specs, late);
  }

  /** A quiet step of another worker, seen from a discovery between recording and deleting. */
  lemma RecordedStays(s: System, s': System, w: nat, v: nat)
    requires OnlyWorker(s, s', w) && v < |s.pcs| && v != w && s.pcs[v].Recorded? && Local(s, v) && !s'.pcs[w].Adding?
    requires s'.table == s.table && s'.nextId == s.nextId
    requires forall c, t :: ClaimAt(s, t, c) ==> ClaimAt(s', t, c)
    requires forall c :: PendingBut(s, c, v) ==> PendingBut(s', c, v)
    requires forall c :: c in s'.covered && c !in s.covered ==> PendingBut(s', c, v)
    ensures Local(s', v)
  {
    hide ClaimAt, PendingBut;
    assert forall u :: 0 <= u < |s.pcs| && u != w ==> s'.pcs[u] == s.pcs[u];
  }

  lemma OutsideKeepsInv(s: System, live: LiveChains)
    requires Inv(s) && SameTagged(live, s.live)
    ensures Inv(s.(live := live))
  {
    hide Claim, Unfinished, PendingIds, Filter;
    var s' := s.(live := live);
    forall c, t
      ensures ClaimAt(s', t, c) <==> ClaimAt(s, t, c)
    {
      assert Unfinished(s', c) == Unfinished(s, c) && PendingIds(s', c) == PendingIds(s, c) by { SamePcs(s, s', c); }
      SameClaim(s, s', t, c);
    }
    hide ClaimAt;
    forall v | 0 <= v < |s.pcs|
      ensures Local(s', v)
    {
      assert Local(s, v);
      assert forall c :: PendingBut(s, c, v) ==> PendingBut(s', c, v);
      if s.pcs[v].Deleting? {
        SameLeftover(s, s', s.pcs[v].c, s.pcs[v].specs[s.pcs[v].i..]);
      }
    }
    forall c | c in s'.covered
      ensures Settled(s', c)
    {
      assert Settled(s, c);
      assert Pending(s, c) ==> Pending(s', c);
    }
  }

  lemma SamePcs(s: System, s': System, c: Chain)
    requires s'.pcs == s.pcs && s'.lock == s.lock
    ensures Unfinished(s', c) == Unfinished(s, c) && PendingIds(s', c) == PendingIds(s, c)
  {
  }

  lemma ResyncKeepsInv(s: System, w: nat)
    requires Inv(s)
    ensures Inv(Do(s, Action.Resync(w)))
  {
    hide ClaimAt;
    var s' := Do(s, Action.Resync(w));
    if w < |s.pcs| && s.pcs[w].Idle? {
      NoLockForIdle(s, w);
      QuietStep(s, s', w);
    }
  }

  lemma NoLockForIdle(s: System, w: nat)
    requires Inv(s) && w < |s.pcs| && !Holds(s.pcs[w])
    ensures s.lock != Some(w)
  {
  }

  lemma EnterKeepsInv(s: System, w: nat, c: Chain)
    requires Inv(s)
    ensures Inv(Do(s, Enter(w, c)))
  {
    hide ClaimAt;
    var s' := Do(s, Enter(w, c));
    if w < |s.pcs| && s.pcs[w].Waiting? && c in s.pcs[w].todo && (s.pcs[w].keep || s.lock == None) {
      assert s.pcs[w].keep ==> s.lock == Some(w);
      QuietStep(s, s', w);
    }
  }

  lemma DiscoverKeepsInv(s: System, w: nat)
    requires Inv(s)
    ensures Inv(Do(s, Action.Discover(w)))
  {
    hide ClaimAt;
    var s' := Do(s, Action.Discover(w));
    if w < |s.pcs| && s.pcs[w].Idle? && s.lock == None {
      QuietStep(s, s', w);
    }
  }

  lemma LeaveKeepsInv(s: System, w: nat)
    requires Inv(s) && w < |s.pcs| && s.pcs[w].Waiting?
    ensures Inv(Proceed(s, w))
  {
    hide ClaimAt;
    var s' := Proceed(s, w);
    if s.pcs[w].todo == {} {
      assert s.pcs[w].keep ==> s.lock == Some(w);
      assert !s.pcs[w].keep ==> s.lock != Some(w);
      QuietStep(s, s', w);
    }
  }

  // ---------- adds ----------

  /** While a worker steps outside the lock, what an add commits or appends is seen from the others. */
  lemma AddCommits(s: System, s': System, w: nat, row: Row, t: Table, c: Chain)
    requires Inv(s) && w < |s.pcs| && s.pcs[w].Idle? && s' == CommitAdd(s, w, row.rule, row.note)
    requires row == Row(s.nextId, row.rule, row.note, true, MaxPosition(AllRows(s.table)) + 1.0)
             && !row.rule.ClientBlock?
    requires t == s.table || (exists v :: 0 <= v < |s.pcs| && s.pcs[v].Recorded? && t == s.table - {s.pcs[v].row.id})
    requires ClaimAt(s, t, c)
    ensures ClaimAt(s', t[row.id := row], c)
  {
    hide Claim, MaxPosition, Local;
    PendingFacts(s, c);
    MaxPositionBounds(AllRows(s.table));
    forall id | id in t
      ensures t[id].position < row.position && id < row.id
    {
      assert s.table[id] in AllRows(s.table);
    }
    assert PendingIds(s', c) == if c in ChainsFor(row.rule) then PendingIds(s, c) + {row.id} else PendingIds(s, c) by {
      PendingAfterCommit(s, s', w, row, c);
    }
    assert Unfinished(s', c) == Unfinished(s, c) by { NoLockForIdle(s, w); }
    CommitTop(t, Filter(Owned, s.live.At(c)), PrintAll(Unfinished(s, c), c), PendingIds(s, c), c in s.crossed, c, row);
  }

  lemma PendingAfterCommit(s: System, s': System, w: nat, row: Row, c: Chain)
    requires OnlyWorker(s, s', w) && !s.pcs[w].Adding? && s'.pcs[w] == Adding(row, Halves(row.rule))
    requires !row.rule.ClientBlock?
    ensures PendingIds(s', c) == if c in ChainsFor(row.rule) then PendingIds(s, c) + {row.id} else PendingIds(s, c)
  {
    assert c in Halves(row.rule) <==> c in ChainsFor(row.rule);
    forall id
      ensures id in PendingIds(s', c) <==> id in PendingIds(s, c) || (c in ChainsFor(row.rule) && id == row.id)
    {
      if id in PendingIds(s, c) {
        var v :| 0 <= v < |s.pcs| && s.pcs[v].Adding? && c in s.pcs[v].halves && s.pcs[v].row.id == id;
        assert s'.pcs[v].Adding?;
      }
      if id in PendingIds(s', c) && id != row.id {
        var v :| 0 <= v < |s'.pcs| && s'.pcs[v].Adding? && c in s'.pcs[v].halves && s'.pcs[v].row.id == id;
        assert s.pcs[v].Adding?;
      }
      if c in ChainsFor(row.rule) && id == row.id {
        assert s'.pcs[w].Adding?;
      }
    }
  }

  lemma AddKeepsInv(s: System, w: nat, rule: Rule, note: string)
    requires Inv(s)
    ensures Inv(Do(s, Action.Add(w, rule, note)))
  {
    hide ClaimAt, MaxPosition, Leftover, WillRead, Pending, PendingBut;
    var s' := Do(s, Action.Add(w, rule, note));
    if w < |s.pcs| && s.pcs[w].Idle? && Complete(rule) && !rule.ClientBlock? {
      var row := Row(s.nextId, rule, note, true, MaxPosition(AllRows(s.table)) + 1.0);
      assert s' == CommitAdd(s, w, rule, note);
      assert forall c :: !WillRead(s.pcs[w], c) by { IdleReadsNothing(s.pcs[w]); }
      PendingGrows(s, s', w);
      AddedLocal(s, s', w, row);
      AddedApart(s, s', w, row);
      forall c | c in s'.covered
        ensures Settled(s', c)
      {
        assert Settled(s, c);
        if ClaimAt(s, s.table, c) { AddCommits(s, s', w, row, s.table, c); }
      }
    }
  }

  lemma IdleReadsNothing(pc: Pc)
    requires pc.Idle? || pc.Adding?
    ensures forall c :: !WillRead(pc, c)
  {
  }

  lemma AddedLocal(s: System, s': System, w: nat, row: Row)
    requires Inv(s) && w < |s.pcs| && s.pcs[w].Idle? && s' == CommitAdd(s, w, row.rule, row.note)
    requires row == Row(s.nextId, row.rule, row.note, true, MaxPosition(AllRows(s.table)) + 1.0)
             && !row.rule.ClientBlock?
    requires forall c, v :: PendingBut(s, c, v) ==> PendingBut(s', c, v)
    ensures forall v :: 0 <= v < |s'.pcs| ==> Local(s', v)
  {
    hide ClaimAt, MaxPosition, WillRead, PendingBut;
    assert forall id :: id in s.table ==> s'.table[id] == s.table[id];
    forall v | 0 <= v < |s'.pcs|
      ensures Local(s', v)
    {
      assert Local(s, v);
      if v == w {
        HalvesAreChains(row.rule);
      } else if s.pcs[v].Deleting? {
        SameLeftover(s, s', s.pcs[v].c, s.pcs[v].specs[s.pcs[v].i..]);
      } else if s.pcs[v].Recorded? {
        AddedSeenByDiscovery(s, s', w, v, row);
      }
    }
  }

  lemma HalvesAreChains(r: Rule)
    requires !r.ClientBlock?
    ensures forall c :: c in Halves(r) ==> c in ChainsFor(r)
    ensures forall i, j :: 0 <= i < j < |Halves(r)| ==> Halves(r)[i] != Halves(r)[j]
  {
  }

  lemma AddedSeenByDiscovery(s: System, s': System, w: nat, v: nat, row: Row)
    requires Inv(s) && w < |s.pcs| && s.pcs[w].Idle? && s' == CommitAdd(s, w, row.rule, row.note)
    requires row == Row(s.nextId, row.rule, row.note, true, MaxPosition(AllRows(s.table)) + 1.0)
             && !row.rule.ClientBlock?
    requires v < |s.pcs| && v != w && s.pcs[v].Recorded?
    requires forall c :: PendingBut(s, c, v) ==> PendingBut(s', c, v)
    ensures Local(s', v)
  {
    hide ClaimAt, MaxPosition, PendingBut, Leftover;
    assert Local(s, v);
    var rec := s.pcs[v].row.id;
    assert rec < row.id && s'.pcs[v] == s.pcs[v];
    assert s'.table - {rec} == (s.table - {rec})[row.id := row];
    forall c | c in s'.covered
      ensures c in s.pcs[v].touched || PendingBut(s', c, v) || ClaimAt(s', s'.table - {rec}, c)
    {
      if ClaimAt(s, s.table - {rec}, c) { AddCommits(s, s', w, row, s.table - {rec}, c); }
    }
    forall u | 0 <= u < |s'.pcs| && s'.pcs[u].Adding?
      ensures s'.pcs[u].row.id != rec
    {
      assert u != w ==> s.pcs[u].Adding?;
    }
  }

  lemma AddedApart(s: System, s': System, w: nat, row: Row)
    requires Inv(s) && w < |s.pcs| && s' == CommitAdd(s, w, row.rule, row.note) && row.id == s.nextId
    requires s'.pcs[w] == Adding(row, Halves(row.rule))
    ensures AddsApart(s')
  {
    hide ClaimAt, Leftover, MaxPosition;
    forall v | 0 <= v < |s.pcs| && s.pcs[v].Adding?
      ensures s.pcs[v].row.id < s.nextId
    {
      assert Local(s, v);
    }
  }

  /** One command of an add, seen from a chain: the one it appends to, or another. */
  lemma AddAppends(s: System, s': System, w: nat, t: Table, c: Chain)
    requires Inv(s) && w < |s.pcs| && s.pcs[w].Adding? && s.pcs[w].halves != []
    requires s' == AppendAdded(s, w, s.pcs[w].row, s.pcs[w].halves[0], s.pcs[w].halves[1..])
    requires t == s.table || (exists v :: 0 <= v < |s.pcs| && s.pcs[v].Recorded? && t == s.table - {s.pcs[v].row.id})
    requires ClaimAt(s, t, c)
    ensures ClaimAt(s', t, c)
  {
    hide Inv, Claim, PendingOk, PendingIds, Unfinished, Filter, AddTo, PrintAll;
    var row := s.pcs[w].row;
    AddersRow(s, w, t, c);
    PendingAfterAppend(s, s', w, c);
    SameUnfinished(s, s', w, c);
    if c == s.pcs[w].halves[0] {
      IsPending(s, w, c);
      AddedIsShown(s.live, row, c);
      PrintsNothing(Unfinished(s, c), c);
      AppendPending(t, Filter(Owned, s.live.At(c)), PrintAll(Unfinished(s, c), c), PendingIds(s, c), c in s.crossed, c,
                    row, Overtakes(s, row.id, c));
    } else {
      OtherChainStays(s.live, row, s.pcs[w].halves[0], c);
    }
  }

  /** What an add knows about its row, in the table less the row of a discovery too. */
  lemma AddersRow(s: System, w: nat, t: Table, c: Chain)
    requires Inv(s) && w < |s.pcs| && s.pcs[w].Adding?
    requires t == s.table || (exists v :: 0 <= v < |s.pcs| && s.pcs[v].Recorded? && t == s.table - {s.pcs[v].row.id})
    ensures var row := s.pcs[w].row;
            && row.id in t && t[row.id].rule == row.rule && !row.rule.ClientBlock?
            && Keyed(t) && PendingOk(t, PendingIds(s, c), c) && AddsApart(s)
    ensures forall i, j :: 0 <= i < j < |s.pcs[w].halves| ==> s.pcs[w].halves[i] != s.pcs[w].halves[j]
  {
    hide ClaimAt, Settled, Leftover, PendingBut, PendingIds;
    assert Local(s, w);
    PendingFacts(s, c);
    if t != s.table {
      var v :| 0 <= v < |s.pcs| && s.pcs[v].Recorded? && t == s.table - {s.pcs[v].row.id};
      assert Local(s, v);
    }
  }

  lemma SameUnfinished(s: System, s': System, w: nat, c: Chain)
    requires Inv(s) && OnlyWorker(s, s', w) && !Holds(s.pcs[w]) && s'.lock == s.lock
    ensures Unfinished(s', c) == Unfinished(s, c)
  {
    NoLockForIdle(s, w);
  }

  lemma IsPending(s: System, w: nat, c: Chain)
    requires w < |s.pcs| && s.pcs[w].Adding? && c in s.pcs[w].halves
    ensures s.pcs[w].row.id in PendingIds(s, c)
  {
  }

  lemma AddedIsShown(live: LiveChains, row: Row, c: Chain)
    requires !row.rule.ClientBlock?
    ensures Filter(Owned, AddTo(live, row, c).At(c)) == Filter(Owned, live.At(c)) + [Printed(row, c)]
  {
    hide Printed;
    PrintedOwned(row, c);
    FilterConcat(Owned, live.At(c), [Printed(row, c)]);
    FilterAll(Owned, [Printed(row, c)]);
  }

  lemma OtherChainStays(live: LiveChains, row: Row, d: Chain, c: Chain)
    requires c != d
    ensures AddTo(live, row, d).At(c) == live.At(c)
  {
    hide Printed;
  }

  lemma PrintsNothing(rows: seq<Row>, c: Chain)
    ensures PrintAll(rows, c) == [] <==> rows == []
  {
  }

  lemma PendingAfterAppend(s: System, s': System, w: nat, c: Chain)
    requires OnlyWorker(s, s', w) && s.pcs[w].Adding? && s.pcs[w].halves != [] && AddsApart(s)
    requires s'.pcs[w] == Adding(s.pcs[w].row, s.pcs[w].halves[1..])
    requires forall i, j :: 0 <= i < j < |s.pcs[w].halves| ==> s.pcs[w].halves[i] != s.pcs[w].halves[j]
    ensures PendingIds(s', c)
         == if c == s.pcs[w].halves[0] then PendingIds(s, c) - {s.pcs[w].row.id} else PendingIds(s, c)
  {
    hide PendingIds;
    var row, halves := s.pcs[w].row, s.pcs[w].halves;
    HeadAndTail(halves, c);
    forall id
      ensures id in PendingIds(s', c) <==> id in PendingIds(s, c) && !(c == halves[0] && id == row.id)
    {
      PendsIff(s, c, id);
      PendsIff(s', c, id);
      forall v: nat
        ensures Pends(s', v, c, id) <==> Pends(s, v, c, id) && !(v == w && c == halves[0])
      {
      }
      assert Pends(s, w, c, row.id) <==> c in halves;
      assert forall v: nat :: Pends(s, v, c, row.id) ==> v == w;
    }
  }

  lemma HeadAndTail(halves: seq<Chain>, c: Chain)
    requires halves != [] && forall i, j :: 0 <= i < j < |halves| ==> halves[i] != halves[j]
    ensures c in halves[1..] <==> c in halves && c != halves[0]
  {
  }

  /** Worker v still has to append row id to the chain. */
  predicate Pends(s: System, v: nat, c: Chain, id: int) {
    v < |s.pcs| && s.pcs[v].Adding? && c in s.pcs[v].halves && s.pcs[v].row.id == id
  }

  lemma PendsIff(s: System, c: Chain, id: int)
    ensures id in PendingIds(s, c) <==> exists v :: Pends(s, v, c, id)
  {
    if id in PendingIds(s, c) {
      var v :| 0 <= v < |s.pcs| && s.pcs[v].Adding? && c in s.pcs[v].halves && s.pcs[v].row.id == id;
      assert Pends(s, v, c, id);
    }
  }

  /** The last step of an add, and each of its commands. */
  lemma AddingKeepsInv(s: System, w: nat)
    requires Inv(s) && w < |s.pcs| && s.pcs[w].Adding?
    ensures Inv(Proceed(s, w))
  {
    hide ClaimAt, Leftover, WillRead, Pending, PendingBut, PendingIds, Unfinished, Overtakes, AddTo, Filter;
    var s' := Proceed(s, w);
    IdleReadsNothing(s.pcs[w]);
    PendingGrows(s, s', w);
    assert Local(s, w);
    forall c, t | ClaimAt(s, t, c) &&
        (t == s.table || exists v :: 0 <= v < |s.pcs| && s.pcs[v].Recorded? && t == s.table - {s.pcs[v].row.id})
      ensures ClaimAt(s', t, c)
    {
      if s.pcs[w].halves == [] { AddEnds(s, s', w, t, c); } else { AddAppends(s, s', w, t, c); }
    }
    forall v | 0 <= v < |s'.pcs|
      ensures Local(s', v)
    {
      AddingKeepsLocal(s, s', w, v);
    }
    assert AddsApart(s') by {
      assert forall u :: 0 <= u < |s'.pcs| && s'.pcs[u].Adding? ==>
               s.pcs[u].Adding? && s'.pcs[u].row.id == s.pcs[u].row.id;
    }
    hide Local;
    forall c | c in s'.covered
      ensures Settled(s', c)
    {
      assert Settled(s, c);
    }
  }

  lemma AddingKeepsLocal(s: System, s': System, w: nat, v: nat)
    requires Inv(s) && w < |s.pcs| && s.pcs[w].Adding? && s' == Proceed(s, w) && v < |s.pcs|
    requires forall c, v :: PendingBut(s, c, v) ==> PendingBut(s', c, v)
    requires forall c, t | ClaimAt(s, t, c) && (exists v :: 0 <= v < |s.pcs| && s.pcs[v].Recorded?
                                                        && t == s.table - {s.pcs[v].row.id}) :: ClaimAt(s', t, c)
    ensures Local(s', v)
  {
    hide ClaimAt, Leftover, WillRead, Pending, PendingBut, PendingIds, Unfinished, Overtakes, AddTo, Filter, Settled;
    assert Local(s, v);
    assert v != w ==> s'.pcs[v] == s.pcs[v];
    if v != w && s.pcs[v].Deleting? {
      LeftoverGrows(s, s', w, v);
    } else if v != w && s.pcs[v].Recorded? {
      assert forall u :: 0 <= u < |s'.pcs| && s'.pcs[u].Adding? ==>
               s.pcs[u].Adding? && s'.pcs[u].row.id == s.pcs[u].row.id;
    }
  }

  lemma AddEnds(s: System, s': System, w: nat, t: Table, c: Chain)
    requires Inv(s) && w < |s.pcs| && s.pcs[w].Adding? && s.pcs[w].halves == [] && s' == Proceed(s, w)
    requires ClaimAt(s, t, c)
    ensures ClaimAt(s', t, c)
  {
    hide Inv, Claim, Unfinished, PendingIds;
    SameUnfinished(s, s', w, c);
    forall id
      ensures id in PendingIds(s', c) <==> id in PendingIds(s, c)
    {
      PendsIff(s, c, id);
      PendsIff(s', c, id);
      assert forall v: nat :: Pends(s', v, c, id) <==> Pends(s, v, c, id);
    }
    SameClaim(s, s', t, c);
  }

  /** An add's command behind a listing. */
  lemma LeftoverGrows(s: System, s': System, w: nat, v: nat)
    requires Inv(s) && w < |s.pcs| && v < |s.pcs| && s.pcs[w].Adding? && s.pcs[v].Deleting? && s' == Proceed(s, w)
    ensures var pc := s.pcs[v]; pc.i <= |pc.specs| && exists late :: Leftover(s', pc.c, pc.specs[pc.i..], late)
  {
    hide ClaimAt, Printed, Settled, Filter, AddTo, Overtakes, Unfinished;
    assert Local(s, v) && Local(s, w);
    var c, specs := s.pcs[v].c, s.pcs[v].specs[s.pcs[v].i..];
    var late :| Leftover(s, c, specs, late);
    if s.pcs[w].halves == [] {
      assert Leftover(s', c, specs, late);
    } else if s.pcs[w].halves[0] == c {
      var row := s.pcs[w].row;
      PrintedTag(row, c);
      AddedIsShown(s.live, row, c);
      assert s.pcs[w].halves[0] in s.pcs[w].halves;
      var more := late + [Printed(row, c)];
      assert Filter(Owned, specs) + more == Filter(Owned, specs) + late + [Printed(row, c)];
      assert Leftover(s', c, specs, more);
    } else {
      OtherChainStays(s.live, s.pcs[w].row, s.pcs[w].halves[0], c);
      assert Leftover(s', c, specs, late);
    }
  }

  // ---------- drags and enables ----------

  lemma CommitSeen(s: System, s': System, w: nat, row: Row, t: Table, c: Chain)
    requires Inv(s) && w < |s.pcs| && s.pcs[w].Idle? && s' == Commit(s, w, row)
    requires row.id in s.table && s.table[row.id].rule == row.rule && c !in ChainsFor(row.rule)
    requires t == s.table || (exists v :: 0 <= v < |s.pcs| && s.pcs[v].Recorded? && t == s.table - {s.pcs[v].row.id})
    requires ClaimAt(s, t, c)
    ensures ClaimAt(s', t[row.id := row], c)
  {
    hide Claim, Leftover;
    PendingFacts(s, c);
    NoLockForIdle(s, w);
    QuietWorker(s, s', w, c);
    ChangeElsewhere(t, Filter(Owned, s.live.At(c)), PrintAll(Unfinished(s, c), c), PendingIds(s, c), c in s.crossed, c,
        row);
  }

  lemma CommitKeepsInv(s: System, w: nat, row: Row)
    requires Inv(s) && w < |s.pcs| && s.pcs[w].Idle?
    requires row.id in s.table && s.table[row.id].rule == row.rule && (s.table[row.id].enabled ==> row.enabled)
    ensures Inv(Commit(s, w, row))
  {
    hide ClaimAt, Leftover, Pending, PendingBut;
    var s' := Commit(s, w, row);
    assert forall c :: !WillRead(s.pcs[w], c) by { IdleReadsNothing(s.pcs[w]); }
    PendingGrows(s, s', w);
    NoLockForIdle(s, w);
    assert forall c :: c in ChainsFor(row.rule) ==> WillRead(s'.pcs[w], c);
    forall v | 0 <= v < |s.pcs|
      ensures Local(s', v)
    {
      assert Local(s, v);
      assert v != w ==> s'.pcs[v] == s.pcs[v];
      if v != w && s.pcs[v].Deleting? {
        SameLeftover(s, s', s.pcs[v].c, s.pcs[v].specs[s.pcs[v].i..]);
      } else if v != w && s.pcs[v].Recorded? {
        CommitSeenByDiscovery(s, s', w, v, row);
      }
    }
    forall c | c in s'.covered
      ensures Settled(s', c)
    {
      if c !in ChainsFor(row.rule) {
        assert Settled(s, c);
        if ClaimAt(s, s.table, c) { CommitSeen(s, s', w, row, s.table, c); }
      }
    }
  }

  lemma CommitSeenByDiscovery(s: System, s': System, w: nat, v: nat, row: Row)
    requires Inv(s) && w < |s.pcs| && s.pcs[w].Idle? && s' == Commit(s, w, row)
    requires row.id in s.table && s.table[row.id].rule == row.rule
    requires v < |s.pcs| && v != w && s.pcs[v].Recorded?
    requires forall c :: PendingBut(s, c, v) ==> PendingBut(s', c, v)
    requires forall c :: c in ChainsFor(row.rule) ==> PendingBut(s', c, v)
    ensures Local(s', v)
  {
    hide ClaimAt, PendingBut, Leftover;
    assert Local(s, v);
    var rec := s.pcs[v].row.id;
    assert s'.pcs[v] == s.pcs[v];
    forall c | c in s'.covered
      ensures c in s.pcs[v].touched || PendingBut(s', c, v) || ClaimAt(s', s'.table - {rec}, c)
    {
      if c !in ChainsFor(row.rule) && ClaimAt(s, s.table - {rec}, c) {
        CommitSeen(s, s', w, row, s.table - {rec}, c);
        if rec == row.id {
          // the recorded row itself was dragged: the chain does not show it either way
          SameWithout(s, s', w, rec, c);
        } else {
          assert s'.table - {rec} == (s.table - {rec})[row.id := row];
        }
      }
    }
    forall u | 0 <= u < |s'.pcs| && s'.pcs[u].Adding?
      ensures s'.pcs[u].row.id != rec
    {
      assert s.pcs[u].Adding?;
    }
  }

  lemma SameWithout(s: System, s': System, w: nat, id: int, c: Chain)
    requires Inv(s) && w < |s.pcs| && s.pcs[w].Idle? && OnlyWorker(s, s', w) && s'.pcs[w].Waiting? && s'.lock == s.lock
    requires s'.live == s.live && s'.crossed == s.crossed && s'.table - {id} == s.table - {id}
    requires ClaimAt(s, s.table - {id}, c)
    ensures ClaimAt(s', s'.table - {id}, c)
  {
    hide Claim, Leftover;
    NoLockForIdle(s, w);
    QuietWorker(s, s', w, c);
    SameClaim(s, s', s.table - {id}, c);
  }

  // ---------- steps of the worker that holds the lock ----------

  /** While one worker holds the lock no other is inside a rebuild or a scan. */
  lemma OthersOutside(s: System, w: nat)
    requires Inv(s) && w < |s.pcs| && Holds(s.pcs[w])
    ensures forall v :: 0 <= v < |s.pcs| && v != w ==>
              s.pcs[v].Idle? || s.pcs[v].Adding? || (s.pcs[v].Waiting? && !s.pcs[v].keep)
  {
  }

  /** What a step of the holder has to show. */
  lemma HolderStep(s: System, s': System, w: nat)
    requires Inv(s) && OnlyWorker(s, s', w) && Holds(s.pcs[w]) && !s'.pcs[w].Adding?
    requires s'.lock == if Holds(s'.pcs[w]) then Some(w) else None
    requires WellKept(Fw(s'.table, s'.nextId, s'.live)) && Local(s', w)
    requires forall v :: 0 <= v < |s.pcs| && s.pcs[v].Adding? ==>
               s.pcs[v].row.id in s.table && s.pcs[v].row.id in s'.table
               && s'.table[s.pcs[v].row.id] == s.table[s.pcs[v].row.id]
    requires forall c :: c in s'.covered ==> Settled(s', c)
    ensures Inv(s')
  {
    hide Settled, PendingBut, ClaimAt, Leftover;
    OthersOutside(s, w);
    assert forall v :: 0 <= v < |s.pcs| && v != w ==> s'.pcs[v] == s.pcs[v];
    forall v | 0 <= v < |s'.pcs|
      ensures Local(s', v)
    {
      assert Local(s, v);
    }
  }

  lemma AddsAreStored(s: System)
    requires Inv(s)
    ensures forall v :: 0 <= v < |s.pcs| && s.pcs[v].Adding? ==>
              s.pcs[v].row.id in s.table && s.pcs[v].row.id < s.nextId
              && forall w :: 0 <= w < |s.pcs| && s.pcs[w].Recorded? ==> s.pcs[v].row.id != s.pcs[w].row.id
  {
    hide ClaimAt, Leftover;
    forall v | 0 <= v < |s.pcs| && s.pcs[v].Adding?
      ensures s.pcs[v].row.id in s.table && s.pcs[v].row.id < s.nextId
      ensures forall w :: 0 <= w < |s.pcs| && s.pcs[w].Recorded? ==> s.pcs[v].row.id != s.pcs[w].row.id
    {
      assert Local(s, v);
      forall w | 0 <= w < |s.pcs| && s.pcs[w].Recorded?
        ensures s.pcs[v].row.id != s.pcs[w].row.id
      {
        assert Local(s, w);
      }
    }
  }

  /** A chain stays settled when the holder keeps whatever it still had to read and the claim about the chain moves
      along, or the holder will read it. */
  lemma StaysSettled(s: System, s': System, w: nat, c: Chain)
    requires OnlyWorker(s, s', w) && Settled(s, c)
    requires WillRead(s.pcs[w], c) ==> WillRead(s'.pcs[w], c)
    requires ClaimAt(s, s.table, c) ==> ClaimAt(s', s'.table, c) || WillRead(s'.pcs[w], c)
    ensures Settled(s', c)
  {
    hide ClaimAt, WillRead;
    PendingGrowsAt(s, s', w, c);
  }

  /** The same for a step that does not touch what the claim is about. */
  lemma HolderQuiet(s: System, s': System, w: nat, c: Chain)
    requires Inv(s) && c in s.covered && OnlyWorker(s, s', w) && Holds(s.pcs[w]) && !s'.pcs[w].Adding?
    requires s'.lock in {None, Some(w)} && (c in s'.crossed <==> c in s.crossed)
    requires !(s.pcs[w].Appending? && s.pcs[w].c == c) && !(s'.pcs[w].Appending? && s'.pcs[w].c == c)
    requires WillRead(s.pcs[w], c) ==> WillRead(s'.pcs[w], c)
    requires s'.table == s.table
    requires Filter(Owned, s'.live.At(c)) == Filter(Owned, s.live.At(c)) || WillRead(s'.pcs[w], c)
    ensures Settled(s', c)
  {
    hide Claim, Leftover, WillRead, Pending, PendingBut, Local;
    assert s.lock == Some(w);
    assert Settled(s, c);
    if Filter(Owned, s'.live.At(c)) == Filter(Owned, s.live.At(c)) {
      QuietWorker(s, s', w, c);
      SameClaim(s, s', s.table, c);
    }
    hide ClaimAt;
    StaysSettled(s, s', w, c);
  }

  lemma ListKeepsInv(s: System, w: nat)
    requires Inv(s) && w < |s.pcs| && s.pcs[w].Entered?
    ensures Inv(Proceed(s, w))
  {
    hide ClaimAt, Leftover, Filter;
    var s' := Proceed(s, w);
    assert Local(s, w);
    AddsAreStored(s);
    var c := s.pcs[w].c;
    assert s.live.At(c)[0..] == s.live.At(c);
    assert exists late :: Leftover(s', c, s.live.At(c)[0..], late) by { NothingLate(s', c, s.live.At(c)); }
    forall d | d in s'.covered { HolderQuiet(s, s', w, d); }
    HolderStep(s, s', w);
  }

  lemma NothingLate(s: System, c: Chain, specs: seq<LiveRule>)
    requires c !in s.late && s.live.At(c) == specs
    ensures exists late :: Leftover(s, c, specs, late)
  {
    assert Filter(Owned, specs) + [] == Filter(Owned, specs);
    assert Leftover(s, c, specs, []);
  }

  lemma TaggedRest(specs: seq<LiveRule>, i: nat, chain: seq<LiveRule>, late: seq<LiveRule>)
    requires i < |specs| && Filter(Owned, chain) == Filter(Owned, specs[i..]) + late
    ensures Filter(Owned, if Owned(specs[i]) then Without(chain, specs[i]) else chain)
            == Filter(Owned, specs[i + 1..]) + late
  {
    hide Owned;
    assert specs[i..] == [specs[i]] + specs[i + 1..];
    FilterConcat(Owned, [specs[i]], specs[i + 1..]);
    if Owned(specs[i]) {
      FilterWithoutKept(Owned, chain, specs[i]);
      FilterAll(Owned, [specs[i]]);
      var rest := Filter(Owned, specs[i + 1..]);
      assert Filter(Owned, chain) == [specs[i]] + (rest + late);
    } else {
      FilterNone(Owned, [specs[i]]);
    }
  }

  lemma DeleteKeepsInv(s: System, w: nat)
    requires Inv(s) && w < |s.pcs| && s.pcs[w].Deleting? && s.pcs[w].i < |s.pcs[w].specs|
    ensures Inv(Proceed(s, w))
  {
    hide ClaimAt, Filter, Without;
    var s' := Proceed(s, w);
    assert Local(s, w);
    AddsAreStored(s);
    var Deleting(c, specs, i, todo, keep) := s.pcs[w];
    var late :| Leftover(s, c, specs[i..], late);
    TaggedRest(specs, i, s.live.At(c), late);
    assert Leftover(s', c, specs[i + 1..], late);
    hide Leftover;
    forall d | d in s'.covered { HolderQuiet(s, s', w, d); }
    HolderStep(s, s', w);
  }

  lemma ReadKeepsInv(s: System, w: nat)
    requires Inv(s) && w < |s.pcs| && s.pcs[w].Deleting? && s.pcs[w].i >= |s.pcs[w].specs|
    ensures Inv(Proceed(s, w))
  {
    hide ClaimAt, Filter, Ordered;
    var s' := Proceed(s, w);
    assert Local(s, w);
    AddsAreStored(s);
    var Deleting(c, specs, i, todo, keep) := s.pcs[w];
    var late :| Leftover(s, c, specs[i..], late);
    assert specs[i..] == [];
    OrderedFacts(s.table, c);
    ReadClaims(s, s', w, c, late);
    hide Leftover;
    assert s'.pcs[w].Appending? && s'.pcs[w].c == c;
    assert ClaimAt(s', s'.table, c) ==> Settled(s', c);
    forall d | d in s'.covered && d != c { HolderQuiet(s, s', w, d); }
    HolderStep(s, s', w);
  }

  /** The claim a read makes. */
  lemma ReadClaims(s: System, s': System, w: nat, c: Chain, late: seq<LiveRule>)
    requires Inv(s) && w < |s.pcs| && s.pcs[w].Deleting? && s.pcs[w].c == c && Leftover(s, c, [], late)
    requires s' == ReadRows(s, w, c, s.pcs[w].todo, s.pcs[w].keep)
    ensures ClaimAt(s', s'.table, c)
  {
    hide Claim, Ordered, PrintAll, Local;
    PendingFacts(s, c);
    assert Filter(Owned, []) == [] && [] + late == late;
    assert s.lock == Some(w);
    var rows := Ordered(s.table, c);
    assert Unfinished(s', c) == rows[0..] == rows;
    PendingAfterRead(s, s', w, c);
    AtRead(s.table, late, PendingIds(s, c), c);
  }

  lemma PendingAfterRead(s: System, s': System, w: nat, c: Chain)
    requires OnlyWorker(s, s', w) && !s.pcs[w].Adding? && !s'.pcs[w].Adding?
    ensures PendingIds(s', c) == PendingIds(s, c)
  {
    assert forall v :: 0 <= v < |s.pcs| && v != w ==> s'.pcs[v] == s.pcs[v];
    forall id
      ensures id in PendingIds(s', c) <==> id in PendingIds(s, c)
    {
      if id in PendingIds(s, c) {
        var v :| 0 <= v < |s.pcs| && s.pcs[v].Adding? && c in s.pcs[v].halves && s.pcs[v].row.id == id;
        assert s'.pcs[v].Adding?;
      }
      if id in PendingIds(s', c) {
        var v :| 0 <= v < |s'.pcs| && s'.pcs[v].Adding? && c in s'.pcs[v].halves && s'.pcs[v].row.id == id;
        assert s.pcs[v].Adding?;
      }
    }
  }

  lemma AppendKeepsInv(s: System, w: nat)
    requires Inv(s) && w < |s.pcs| && s.pcs[w].Appending?
    ensures Inv(Proceed(s, w)) || Proceed(s, w).halted
  {
    hide ClaimAt, Filter, Leftover, PrintAll, Printed;
    var s' := Proceed(s, w);
    assert Local(s, w);
    AddsAreStored(s);
    var Appending(c, rows, k, todo, keep) := s.pcs[w];
    if k >= |rows| || CanPrint(rows[k].rule, c) {
      forall d | d in s'.covered
        ensures Settled(s', d)
      {
        if d != c {
          HolderQuiet(s, s', w, d);
        } else {
          assert Settled(s, c);
          if ClaimAt(s, s.table, c) { AppendMovesClaim(s, s', w); }
          StaysSettled(s, s', w, c);
        }
      }
      HolderStep(s, s', w);
    }
  }

  lemma AppendMovesClaim(s: System, s': System, w: nat)
    requires Inv(s) && w < |s.pcs| && s.pcs[w].Appending? && s' == Proceed(s, w)
    requires ClaimAt(s, s.table, s.pcs[w].c)
    requires s.pcs[w].k >= |s.pcs[w].rows| || CanPrint(s.pcs[w].rows[s.pcs[w].k].rule, s.pcs[w].c)
    ensures ClaimAt(s', s'.table, s.pcs[w].c)
  {
    hide Claim, PrintAll, Filter, PendingIds, Inv, Local, AddTo;
    var Appending(c, rows, k, _, _) := s.pcs[w];
    AppendersPlace(s, w);
    PendingAfterRead(s, s', w, c);
    if k < |rows| {
      PrintsNext(rows, k, c);
      AddedIsShown(s.live, rows[k], c);
      NextRow(s.table, Filter(Owned, s.live.At(c)), PrintAll(rows[k..], c), PendingIds(s, c), c in s.crossed, c);
      assert Unfinished(s', c) == rows[k + 1..];
    } else {
      assert rows[k..] == [] && Unfinished(s', c) == [];
    }
  }

  lemma AppendersPlace(s: System, w: nat)
    requires Inv(s) && w < |s.pcs| && s.pcs[w].Appending?
    ensures s.lock == Some(w) && s.pcs[w].k <= |s.pcs[w].rows|
    ensures Unfinished(s, s.pcs[w].c) == s.pcs[w].rows[s.pcs[w].k..]
    ensures forall r :: r in s.pcs[w].rows ==> !r.rule.ClientBlock?
  {
    hide ClaimAt, Settled;
    assert Local(s, w);
  }

  lemma PrintsNext(rows: seq<Row>, k: nat, c: Chain)
    requires k < |rows|
    ensures PrintAll(rows[k..], c) != [] && PrintAll(rows[k..], c)[0] == Printed(rows[k], c)
    ensures PrintAll(rows[k..], c)[1..] == PrintAll(rows[k + 1..], c)
  {
    hide Printed;
    assert rows[k..][1..] == rows[k + 1..];
  }

  // ---------- discovery ----------

  lemma ScanKeepsInv(s: System, w: nat)
    requires Inv(s) && w < |s.pcs| && s.pcs[w].Scanning?
    ensures Inv(Proceed(s, w))
  {
    hide ClaimAt, Filter, Leftover;
    var s' := Proceed(s, w);
    AddsAreStored(s);
    forall d | d in s'.covered { HolderQuiet(s, s', w, d); }
    HolderStep(s, s', w);
  }

  lemma RecordKeepsInv(s: System, w: nat)
    requires Inv(s) && w < |s.pcs| && s.pcs[w].Adopting?
    ensures Inv(Proceed(s, w))
  {
    hide Inv, Proceed, Adopt;
    var pc := s.pcs[w];
    AdoptersPlace(s, w);
    if pc.i < |pc.specs| && Candidate(pc.known, TARGETS[pc.n], pc.specs[pc.i]) {
      RecordingKeepsInv(s, w);
    } else {
      SkippingKeepsInv(s, w);
    }
  }

  lemma AdoptersPlace(s: System, w: nat)
    requires Inv(s) && w < |s.pcs| && s.pcs[w].Adopting?
    ensures s.pcs[w].n < 4 && s.pcs[w].i <= |s.pcs[w].specs|
  {
    hide ClaimAt, Settled;
    assert Local(s, w);
  }

  lemma SkippingKeepsInv(s: System, w: nat)
    requires Inv(s) && w < |s.pcs| && s.pcs[w].Adopting? && s.pcs[w].n < 4 && s.pcs[w].i <= |s.pcs[w].specs|
    requires s.pcs[w].i < |s.pcs[w].specs| ==>
               !Candidate(s.pcs[w].known, TARGETS[s.pcs[w].n], s.pcs[w].specs[s.pcs[w].i])
    ensures Inv(Proceed(s, w))
  {
    hide ClaimAt, Filter, Leftover, Candidate, Settled;
    var s' := Proceed(s, w);
    AddsAreStored(s);
    forall d | d in s'.covered { HolderQuiet(s, s', w, d); }
    HolderStep(s, s', w);
  }

  lemma RecordingKeepsInv(s: System, w: nat)
    requires Inv(s) && w < |s.pcs| && s.pcs[w].Adopting? && s.pcs[w].n < 4 && s.pcs[w].i < |s.pcs[w].specs|
    requires Candidate(s.pcs[w].known, TARGETS[s.pcs[w].n], s.pcs[w].specs[s.pcs[w].i])
    ensures Inv(Proceed(s, w))
  {
    hide ClaimAt, Filter, Leftover, Adopt, PositionAt, Candidate, Settled;
    var s' := Proceed(s, w);
    AddsAreStored(s);
    var Adopting(n, known, specs, i, touched) := s.pcs[w];
    var row := AdoptedRow(known, TARGETS[n], specs, i, s.nextId);
    RecordSeen(s, s', w, row);
    CandidateTargets(known, TARGETS[n], specs[i]);
    forall d | d in s'.covered
      ensures Settled(s', d)
    {
      RecordSettles(s, s', w, row, d);
    }
    HolderStep(s, s', w);
  }

  lemma RecordSettles(s: System, s': System, w: nat, row: Row, c: Chain)
    requires Inv(s) && OnlyWorker(s, s', w) && s.pcs[w].Adopting? && s'.pcs[w].Recorded? && s'.pcs[w].row == row
    requires s'.pcs[w].touched == s.pcs[w].touched && c in s.covered
    requires s'.lock == s.lock && s'.live == s.live && s'.crossed == s.crossed && row.id == s.nextId
    requires s'.table == s.table[row.id := row]
    ensures Settled(s', c)
  {
    hide ClaimAt, Local, WellKept, Pending;
    assert Settled(s, c);
    if ClaimAt(s, s.table, c) && c !in ChainsFor(row.rule) { RecordElsewhere(s, s', w, row, c); }
    StaysSettled(s, s', w, c);
  }

  lemma CandidateTargets(t: Table, c: Chain, r: LiveRule)
    requires Candidate(t, c, r)
    ensures Adopt(c, r).Some? && c in ChainsFor(Adopt(c, r).value)
  {
  }

  lemma RecordElsewhere(s: System, s': System, w: nat, row: Row, c: Chain)
    requires Inv(s) && OnlyWorker(s, s', w) && s.pcs[w].Adopting? && s'.pcs[w].Recorded?
    requires s'.lock == s.lock && s'.live == s.live && s'.crossed == s.crossed && row.id == s.nextId
    requires s'.table == s.table[row.id := row] && c !in ChainsFor(row.rule) && ClaimAt(s, s.table, c)
    ensures ClaimAt(s', s'.table, c)
  {
    hide Claim, Leftover, Local;
    PendingFacts(s, c);
    QuietWorker(s, s', w, c);
    ChangeElsewhere(s.table, Filter(Owned, s.live.At(c)), PrintAll(Unfinished(s, c), c), PendingIds(s, c),
        c in s.crossed, c, row);
  }

  /** Every claim made before the row was recorded holds of the table without it. */
  lemma RecordSeen(s: System, s': System, w: nat, row: Row)
    requires Inv(s) && w < |s.pcs| && s.pcs[w].Adopting? && OnlyWorker(s, s', w) && s' == Proceed(s, w)
    requires s'.pcs[w].Recorded? && s'.pcs[w].row == row && row.id == s.nextId && s'.table == s.table[row.id := row]
    ensures forall c :: c in s'.covered ==>
              c in s.pcs[w].touched || PendingBut(s', c, w) || ClaimAt(s', s'.table - {row.id}, c)
  {
    hide Claim, Leftover, Local;
    assert s'.table - {row.id} == s.table;
    OthersOutside(s, w);
    forall c | c in s'.covered
      ensures c in s.pcs[w].touched || PendingBut(s', c, w) || ClaimAt(s', s.table, c)
    {
      assert Settled(s, c);
      QuietWorker(s, s', w, c);
      SameClaim(s, s', s.table, c);
      if Pending(s, c) && c !in s.pcs[w].touched {
        var v :| 0 <= v < |s.pcs| && WillRead(s.pcs[v], c);
        assert v != w && WillRead(s'.pcs[v], c);
      }
    }
  }

  lemma EraseKeepsInv(s: System, w: nat)
    requires Inv(s) && w < |s.pcs| && s.pcs[w].Recorded?
    ensures Inv(Proceed(s, w))
  {
    hide ClaimAt, Filter, Without, Leftover;
    var s' := Proceed(s, w);
    assert Local(s, w);
    AddsAreStored(s);
    var Recorded(n, known, specs, i, touched, row) := s.pcs[w];
    if specs[i] in s.live.At(TARGETS[n]) {
      forall d | d in s'.covered
        ensures Settled(s', d)
      {
        if d in ChainsFor(row.rule) {
          assert WillRead(s'.pcs[w], d);
          PendingGrowsAt(s, s', w, d);
        } else {
          HolderQuiet(s, s', w, d);
        }
      }
    } else {
      forall d | d in s'.covered
        ensures Settled(s', d)
      {
        TakenBack(s, s', w, d);
      }
    }
    HolderStep(s, s', w);
  }

  lemma TakenBack(s: System, s': System, w: nat, c: Chain)
    requires Inv(s) && w < |s.pcs| && s.pcs[w].Recorded? && c in s.covered
    requires OnlyWorker(s, s', w) && s'.pcs[w].Adopting? && s'.pcs[w].touched == s.pcs[w].touched
    requires s'.table == s.table - {s.pcs[w].row.id} && s'.live == s.live && s'.crossed == s.crossed
             && s'.lock == s.lock
    ensures Settled(s', c)
  {
    hide Claim, Leftover;
    assert Local(s, w);
    QuietWorker(s, s', w, c);
    SameClaim(s, s', s'.table, c);
    if PendingBut(s, c, w) {
      var v :| 0 <= v < |s.pcs| && v != w && WillRead(s.pcs[v], c);
      assert WillRead(s'.pcs[v], c);
    } else if c in s.pcs[w].touched {
      assert WillRead(s'.pcs[w], c);
    }
  }

  // ---------- every schedule ----------

  lemma RowKnowsItsId(s: System, id: int)
    requires Inv(s) && id in s.table
    ensures s.table[id].id == id
  {
  }

  lemma ProceedKeepsInv(s: System, w: nat)
    requires Inv(s) && w < |s.pcs|
    ensures Inv(Proceed(s, w)) || Proceed(s, w).halted
  {
    hide Inv;
    match s.pcs[w] {
      case Idle =>
      case Adding(_, _) => AddingKeepsInv(s, w);
      case Waiting(_, _) => LeaveKeepsInv(s, w);
      case Entered(_, _, _) => ListKeepsInv(s, w);
      case Deleting(_, specs, i, _, _) => if i < |specs| { DeleteKeepsInv(s, w); } else { ReadKeepsInv(s, w); }
      case Appending(_, _, _, _, _) => AppendKeepsInv(s, w);
      case Scanning(_, _, _) => ScanKeepsInv(s, w);
      case Adopting(_, _, _, _, _) => RecordKeepsInv(s, w);
      case Recorded(_, _, _, _, _, _) => EraseKeepsInv(s, w);
    }
  }

  /** Every step keeps the invariant, unless a rebuild stops at a row it cannot print. */
  lemma DoKeepsInv(s: System, a: Action)
    requires Inv(s)
    ensures Inv(Do(s, a)) || Do(s, a).halted
  {
    hide Inv, Proceed, Commit, CommitAdd;
    match a {
      case Outside(live) => if SameTagged(live, s.live) { OutsideKeepsInv(s, live); }
      case Enter(w, c) => EnterKeepsInv(s, w, c);
      case Resync(w) => ResyncKeepsInv(s, w);
      case Discover(w) => DiscoverKeepsInv(s, w);
      case Add(w, rule, note) => AddKeepsInv(s, w, rule, note);
      case Move(w, id, p) =>
        if w < |s.pcs| && s.pcs[w].Idle? && id in s.table {
          RowKnowsItsId(s, id);
          CommitKeepsInv(s, w, s.table[id].(position := p));
        }
      case Enable(w, id) =>
        if w < |s.pcs| && s.pcs[w].Idle? && id in s.table {
          RowKnowsItsId(s, id);
          CommitKeepsInv(s, w, s.table[id].(enabled := true));
        }
      case Go(w) => if w < |s.pcs| { ProceedKeepsInv(s, w); }
    }
  }

  lemma HaltedStays(s: System, a: Action)
    requires s.halted
    ensures Do(s, a).halted
  {
    hide MaxPosition, Ordered;
  }

  lemma NothingPending(s: System)
    requires AllIdle(s)
    ensures forall c :: PendingIds(s, c) == {} && Unfinished(s, c) == []
  {
  }

  lemma StartIsInv(s: System)
    requires Start(s)
    ensures Inv(s)
  {
    hide Wrong;
    NothingPending(s);
    forall c | c in s.covered
      ensures ClaimAt(s, s.table, c)
    {
      assert s.table - {} == s.table;
      assert PrintAll([], c) == [] && Filter(Owned, s.live.At(c)) + [] == Filter(Owned, s.live.At(c));
    }
  }

  lemma {:induction false} ExecKeepsInv(s: System, schedule: seq<Action>)
    requires Start(s)
    ensures Inv(Exec(s, schedule)) || Exec(s, schedule).halted
  {
    hide Inv, Do, Start;
    if schedule == [] {
      StartIsInv(s);
    } else {
      var before := Exec(s, schedule[..|schedule| - 1]);
      ExecKeepsInv(s, schedule[..|schedule| - 1]);
      if before.halted { HaltedStays(before, schedule[|schedule| - 1]); }
      else { DoKeepsInv(before, schedule[|schedule| - 1]); }
    }
  }

  /** With every worker done, the claim is about the chain as it stands. */
  lemma ClaimWhenIdle(s: System, c: Chain)
    requires AllIdle(s) && Keyed(s.table) && ClaimAt(s, s.table, c)
    ensures ChainInSync(s.table, s.live, c) <==> c !in s.crossed
  {
    NothingPending(s);
    hide Wrong, Ordered, Filter;
    var shown := Filter(Owned, s.live.At(c));
    assert PrintAll([], c) == [] && shown + [] == shown && s.table - {} == s.table;
    if c in s.crossed {
      WrongIsNotInSync(s.table, shown, c);
    }
  }

  /** Convergence: after any schedule in which no rebuild had to stop, if no worker is between its commit and the end of
      its rebuilds or commands, then every chain that was in sync at the start or that some worker was responsible for
      shows exactly its enabled rows in order if and only if its last rebuild was not crossed by an add and no add has
      overtaken another since: no rebuild read its rows between an add's commit and its append, no append fell between
      a listing and the rebuild's last append, and appends came in the order of their commits. */
  lemma ConvergesIff(s: System, schedule: seq<Action>, c: Chain)
    requires Start(s) && AllIdle(Exec(s, schedule)) && !Exec(s, schedule).halted && c in Exec(s, schedule).covered
    ensures var t := Exec(s, schedule); ChainInSync(t.table, t.live, c) <==> c !in t.crossed
  {
    hide ChainInSync, Exec, ClaimAt, Local;
    ExecKeepsInv(s, schedule);
    var t := Exec(s, schedule);
    assert Settled(t, c);
    assert !Pending(t, c);
    ClaimWhenIdle(t, c);
  }

  ghost predicate Adds(schedule: seq<Action>) {
    exists i :: 0 <= i < |schedule| && schedule[i].Add?
  }

  ghost predicate Uncrossed(s: System) {
    (forall w :: 0 <= w < |s.pcs| ==> !s.pcs[w].Adding?) && forall c :: c !in s.late && c !in s.crossed
  }

  /** Without adds nothing is ever crossed. */
  lemma {:induction false} UncrossedWithoutAdds(s: System, schedule: seq<Action>)
    requires Uncrossed(s) && !Adds(schedule)
    ensures Uncrossed(Exec(s, schedule))
  {
    if schedule != [] {
      var last := |schedule| - 1;
      assert !schedule[last].Add?;
      assert !Adds(schedule[..last]) by { assert forall i :: 0 <= i < last ==> schedule[..last][i] == schedule[i]; }
      UncrossedWithoutAdds(s, schedule[..last]);
      StaysUncrossed(Exec(s, schedule[..last]), schedule[last]);
    }
  }

  lemma StaysUncrossed(s: System, a: Action)
    requires Uncrossed(s) && !a.Add?
    ensures Uncrossed(Do(s, a))
  {
    hide MaxPosition, Proceed, UsedChains, SameTagged;
    if a.Go? && a.w < |s.pcs| {
      if s.pcs[a.w].Deleting? { ReadsUncrossed(s, a.w); } else { GoesUncrossed(s, a.w); }
    }
  }

  lemma ReadsUncrossed(s: System, w: nat)
    requires Uncrossed(s) && w < |s.pcs| && s.pcs[w].Deleting?
    ensures Uncrossed(Proceed(s, w))
  {
    hide Ordered;
    assert forall c :: PendingIds(s, c) == {};
  }

  lemma GoesUncrossed(s: System, w: nat)
    requires Uncrossed(s) && w < |s.pcs| && !s.pcs[w].Deleting?
    ensures Uncrossed(Proceed(s, w))
  {
    hide ReadRows, AppendAdded, PositionAt, Adopt, Candidate, AdoptedRow;
  }

  /** So workers that drag, enable, resync and discover, without adds, always converge. */
  lemma Converges(s: System, schedule: seq<Action>, c: Chain)
    requires Start(s) && Uncrossed(s) && !Adds(schedule)
    requires AllIdle(Exec(s, schedule)) && !Exec(s, schedule).halted && c in Exec(s, schedule).covered
    ensures ChainInSync(Exec(s, schedule).table, Exec(s, schedule).live, c)
  {
    hide Exec, ChainInSync;
    ConvergesIff(s, schedule, c);
    UncrossedWithoutAdds(s, schedule);
  }

  /** The tagged rules of a synced chain are pairwise different: no rule is live twice. */
  lemma EachRuleOnce(t: Table, live: LiveChains, c: Chain)
    requires Keyed(t) && ChainInSync(t, live, c)
    ensures Distinct(Filter(Owned, live.At(c)))
  {
    hide Ordered, Printed, Filter, Owned;
    OrderedFacts(t, c);
    var s, f := Ordered(t, c), Filter(Owned, live.At(c));
    assert f == PrintAll(s, c);
    forall i, j | 0 <= i < j < |f|
      ensures f[i] != f[j]
    {
      assert s[i] in s && s[j] in s;
      PrintedTag(s[i], c);
      PrintedTag(s[j], c);
      assert f[i] == Printed(s[i], c) && f[j] == Printed(s[j], c);
      assert Less(s[i], s[j]);
      assert s[i].id in t && t[s[i].id] == s[i] && s[j].id in t && t[s[j].id] == s[j];
    }
  }
}
