/** A worker that nobody disturbs does what the operation of the rule engine does. */
module Alone {
  import opened Wrappers
  import opened Sequences
  import opened Rules
  import opened Lockout
  import opened Discovery
  import opened Firewall
  import opened FirewallApp
  import opened Workers

  function FwOf(s: System): Fw {
    Fw(s.table, s.nextId, s.live)
  }

  /** Only worker w steps: on its own, or into the lock. */
  ghost predicate OwnSteps(schedule: seq<Action>, w: nat) {
    forall a :: a in schedule ==> a == Go(w) || (a.Enter? && a.w == w)
  }

  ghost predicate Gets(s: System, w: nat, s': System) {
    exists schedule :: OwnSteps(schedule, w) && Exec(s, schedule) == s'
  }

  lemma GetsItself(s: System, w: nat)
    ensures Gets(s, w, s)
  {
    assert OwnSteps([], w) && Exec(s, []) == s;
  }

  lemma GetsOn(s: System, w: nat, s': System, a: Action)
    requires Gets(s, w, s') && (a == Go(w) || (a.Enter? && a.w == w))
    ensures Gets(s, w, Do(s', a))
  {
    hide Do;
    var schedule :| OwnSteps(schedule, w) && Exec(s, schedule) == s';
    assert (schedule + [a])[..|schedule|] == schedule;
    assert OwnSteps(schedule + [a], w);
    assert Exec(s, schedule + [a]) == Do(s', a);
  }

  /** What a rebuild and everything in it leaves alone. */
  ghost predicate Apart(s: System, s': System, w: nat) {
    && s'.table == s.table && s'.nextId == s.nextId && w < |s.pcs| == |s'.pcs|
    && s'.pcs == s.pcs[w := s'.pcs[w]]
  }

  // ---------- one chain ----------

  lemma {:induction false} Deletes(s0: System, w: nat, s: System, before: LiveChains) returns (s': System)
    requires w < |s.pcs| && s.pcs[w].Deleting? && s.pcs[w].i <= |s.pcs[w].specs| && Gets(s0, w, s)
    requires s.live == before.Put(s.pcs[w].c, PartlyCleared(s.pcs[w].specs, s.pcs[w].i))
    ensures Gets(s0, w, s') && Apart(s, s', w) && s'.lock == s.lock && s'.halted == s.halted
    ensures var d := s.pcs[w];
            s'.live == before.Put(d.c, Filter(NotOwned, d.specs))
            && s'.pcs[w] == Deleting(d.c, d.specs, |d.specs|, d.todo, d.keep)
    decreases if s.pcs[w].Deleting? then |s.pcs[w].specs| - s.pcs[w].i else 0
  {
    hide Filter, Without, Owned, PartlyCleared, Gets;
    var d := s.pcs[w];
    if d.i < |d.specs| {
      ClearStep(d.specs, d.i);
      PutTwice(before, d.c, PartlyCleared(d.specs, d.i), PartlyCleared(d.specs, d.i + 1));
      GetsOn(s0, w, s, Go(w));
      s' := Deletes(s0, w, Do(s, Go(w)), before);
    } else {
      AllCleared(d.specs);
      s' := s;
    }
  }

  lemma AppendGoes(s: System, w: nat)
    requires w < |s.pcs| && s.pcs[w].Appending? && s.pcs[w].k < |s.pcs[w].rows|
    requires CanPrint(s.pcs[w].rows[s.pcs[w].k].rule, s.pcs[w].c) && !s.pcs[w].rows[s.pcs[w].k].rule.ClientBlock?
    ensures var t, d := Do(s, Go(w)), s.pcs[w];
            && Apart(s, t, w) && t.lock == s.lock && t.halted == s.halted
            && t.pcs[w] == d.(k := d.k + 1)
            && t.live == s.live.Put(d.c, s.live.At(d.c) + [Printed(d.rows[d.k], d.c)])
  {
    hide Printed;
  }

  lemma {:induction false} Appends(s0: System, w: nat, s: System, before: LiveChains, kept: seq<LiveRule>)
    returns (s': System)
    requires w < |s.pcs| && s.pcs[w].Appending? && s.pcs[w].k <= |s.pcs[w].rows| && Gets(s0, w, s)
    requires forall r :: r in s.pcs[w].rows ==> !r.rule.ClientBlock?
    requires forall m :: 0 <= m < s.pcs[w].k ==> CanPrint(s.pcs[w].rows[m].rule, s.pcs[w].c)
    requires s.live == before.Put(s.pcs[w].c, kept + PrintAll(s.pcs[w].rows[..s.pcs[w].k], s.pcs[w].c))
    ensures Gets(s0, w, s') && Apart(s, s', w)
    ensures var d := s.pcs[w];
            var front := PrintableFront(d.rows, d.c);
            && s'.live == before.Put(d.c, kept + PrintAll(front, d.c))
            && if front == d.rows then
                 s'.pcs[w] == Waiting(d.todo - {d.c}, d.keep) && s'.lock == (if d.keep then s.lock else None)
                 && s'.halted == s.halted
               else s'.pcs[w] == Idle && s'.lock == None && s'.halted
    decreases if s.pcs[w].Appending? then |s.pcs[w].rows| - s.pcs[w].k else 0
  {
    hide Printed, PrintAll, PrintableFront, Gets, RebuiltChain;
    var d := s.pcs[w];
    GetsOn(s0, w, s, Go(w));
    if d.k < |d.rows| && CanPrint(d.rows[d.k].rule, d.c) {
      hide Do;
      assert d.rows[d.k] in d.rows;
      AppendGoes(s, w);
      PrintOneMore(kept, d.rows, d.k, d.c);
      PutTwice(before, d.c, kept + PrintAll(d.rows[..d.k], d.c), kept + PrintAll(d.rows[..d.k + 1], d.c));
      s' := Appends(s0, w, Do(s, Go(w)), before, kept);
    } else {
      FrontEnds(d.rows, d.k, d.c);
      s' := Do(s, Go(w));
    }
  }

  lemma Enters(s0: System, w: nat, s: System, c: Chain) returns (s': System)
    requires w < |s.pcs| && s.pcs[w].Waiting? && c in s.pcs[w].todo && Gets(s0, w, s)
    requires s.lock == if s.pcs[w].keep then Some(w) else None
    ensures Gets(s0, w, s') && Apart(s, s', w) && s'.live == s.live && s'.lock == Some(w) && s'.halted == s.halted
    ensures s'.pcs[w] == Deleting(c, s.live.At(c), 0, s.pcs[w].todo, s.pcs[w].keep)
  {
    hide Gets;
    GetsOn(s0, w, s, Enter(w, c));
    var s1 := Do(s, Enter(w, c));
    assert s1.pcs[w] == Entered(c, s.pcs[w].todo, s.pcs[w].keep);
    GetsOn(s0, w, s1, Go(w));
    s' := Do(s1, Go(w));
  }

  lemma ReadGoes(s: System, w: nat)
    requires w < |s.pcs| && s.pcs[w].Deleting? && s.pcs[w].i == |s.pcs[w].specs|
    ensures var t, d := Do(s, Go(w)), s.pcs[w];
            && Apart(s, t, w) && t.live == s.live && t.lock == s.lock && t.halted == s.halted
            && t.pcs[w] == Appending(d.c, Ordered(s.table, d.c), 0, d.todo, d.keep)
  {
    hide Ordered, PendingIds;
  }

  lemma RebuildsOne(s0: System, w: nat, s: System, c: Chain) returns (s': System)
    requires Keyed(s.table) && w < |s.pcs| && s.pcs[w].Waiting? && c in s.pcs[w].todo && Gets(s0, w, s)
    requires s.lock == if s.pcs[w].keep then Some(w) else None
    ensures Gets(s0, w, s') && Apart(s, s', w)
    ensures s'.live == s.live.Put(c, RebuiltChain(s.table, s.live, c))
    ensures if Stuck(s.table, c) then s'.pcs[w] == Idle && s'.lock == None && s'.halted
            else s'.pcs[w] == Waiting(s.pcs[w].todo - {c}, s.pcs[w].keep) && s'.lock == s.lock && s'.halted == s.halted
  {
    hide Filter, PrintAll, PrintableFront, Gets, PartlyCleared;
    var todo, keep, specs := s.pcs[w].todo, s.pcs[w].keep, s.live.At(c);
    var s2 := Enters(s0, w, s, c);
    hide Do, Ordered;
    NoneCleared(s.live, c);
    var s3 := Deletes(s0, w, s2, s.live);
    GetsOn(s0, w, s3, Go(w));
    ReadGoes(s3, w);
    var s4 := Do(s3, Go(w));
    var rows := Ordered(s.table, c);
    RowsAreUnblocked(s.table, c, rows);
    PrintAllEmpty(c);
    assert rows[..0] == [] && Filter(NotOwned, specs) + [] == Filter(NotOwned, specs);
    s' := Appends(s0, w, s4, s.live, Filter(NotOwned, specs));
  }

  // ---------- all its chains ----------

  /** From chain number i of the order on. */
  lemma {:induction false} Rebuilds(s0: System, w: nat, s: System, before: LiveChains, order: seq<Chain>, i: nat)
    returns (s': System)
    requires Keyed(s.table) && w < |s.pcs| && s.pcs[w].Waiting? && Gets(s0, w, s)
    requires s.lock == if s.pcs[w].keep then Some(w) else None
    requires i <= |order| && s.pcs[w].todo == Elements(order[i..])
    requires forall k, j :: 0 <= k < j < |order| ==> order[k] != order[j]
    requires s.live == Rebuilt(s.table, before, Elements(order[..i])) && !Stops(s.table, order[..i])
    ensures Gets(s0, w, s') && Apart(s, s', w) && s'.pcs[w] == Idle && s'.lock == None
    ensures s'.live == Rebuilt(s.table, before, Reached(s.table, order))
    ensures s'.halted <==> s.halted || Stops(s.table, order)
    decreases |order| - i
  {
    hide RebuiltChain, Stuck, Gets, Rebuilt, Reached, Keyed, Stops, Elements;
    if i == |order| {
      NothingLeft(order);
      GetsOn(s0, w, s, Go(w));
      s' := Do(s, Go(w));
      NothingStops(s.table, order);
    } else {
      NextOfOrder(order, i);
      var s1 := RebuildsOne(s0, w, s, order[i]);
      OneMoreRebuilt(s.table, before, s.live, order, i);
      if Stuck(s.table, order[i]) {
        ReachedTo(s.table, order, i);
        s' := s1;
      } else {
        s' := Rebuilds(s0, w, s1, before, order, i + 1);
      }
    }
  }

  lemma NothingLeft(order: seq<Chain>)
    ensures Elements(order[|order|..]) == {} && order[..|order|] == order
  {
  }

  lemma NextOfOrder(order: seq<Chain>, i: nat)
    requires i < |order| && forall k, j :: 0 <= k < j < |order| ==> order[k] != order[j]
    ensures order[i] in Elements(order[i..]) && Elements(order[i..]) - {order[i]} == Elements(order[i + 1..])
  {
    assert order[i..] == [order[i]] + order[i + 1..];
  }

  lemma RebuildsAll(s0: System, w: nat, s: System, order: seq<Chain>) returns (s': System)
    requires Keyed(s.table) && w < |s.pcs| && s.pcs[w].Waiting? && Gets(s0, w, s)
    requires s.lock == (if s.pcs[w].keep then Some(w) else None) && Lists(order, s.pcs[w].todo)
    ensures Gets(s0, w, s') && Apart(s, s', w) && s'.pcs[w] == Idle && s'.lock == None
    ensures s'.live == Rebuilt(s.table, s.live, Reached(s.table, order))
    ensures s'.halted <==> s.halted || Stops(s.table, order)
  {
    hide RebuiltChain, Stuck, Gets, Reached, Keyed;
    SameChains(s.live, Rebuilt(s.table, s.live, {}));
    assert order[0..] == order && Elements(order) == s.pcs[w].todo && Elements(order[..0]) == {};
    assert !Stops(s.table, order[..0]);
    hide Rebuilt, Stops, Elements;
    s' := Rebuilds(s0, w, s, s.live, order, 0);
  }

  // ---------- a discovery ----------

  ghost predicate IsScanning(s: System, w: nat, n: nat, known: Table, touched: set<Chain>) {
    w < |s.pcs| && s.pcs[w] == Scanning(n, known, touched) && s.lock == Some(w) && Keyed(s.table)
  }

  ghost predicate IsAdopting(
      s: System, w: nat, n: nat, known: Table, specs: seq<LiveRule>, i: nat, touched: set<Chain>)
  {
    w < |s.pcs| && s.pcs[w] == Adopting(n, known, specs, i, touched) && s.lock == Some(w) && Keyed(s.table)
  }

  /** What a discovery leaves alone. */
  ghost predicate OthersStay(s: System, s': System, w: nat) {
    w < |s.pcs| == |s'.pcs| && s'.pcs == s.pcs[w := s'.pcs[w]] && s'.halted == s.halted
  }

  lemma {:induction false} ScansOn(
      s0: System, w: nat, s: System, n: nat, known: Table, fw: Fw, specs: seq<LiveRule>, i: nat, before: set<Chain>)
    returns (s': System)
    requires n < 4 && i <= |specs| && Gets(s0, w, s) && FwOf(s) == PartlyScanned(known, TARGETS[n], fw, specs, i)
    requires IsAdopting(s, w, n, known, specs, i,
                        before + TouchedBy(AdoptedRows(known, TARGETS[n], specs, i, fw.nextId)))
    ensures Gets(s0, w, s') && OthersStay(s, s', w)
    ensures FwOf(s') == PartlyScanned(known, TARGETS[n], fw, specs, |specs|)
    ensures IsScanning(s', w, n + 1, known,
                       before + TouchedBy(AdoptedRows(known, TARGETS[n], specs, |specs|, fw.nextId)))
    decreases |specs| - i
  {
    hide PartlyScanned, AdoptedRows, AdoptedRow, TouchedBy, Candidate, Gets, Keyed, DeleteFrom, ChainsFor;
    var c := TARGETS[n];
    GetsOn(s0, w, s, Go(w));
    var s1 := Do(s, Go(w));
    if i == |specs| {
      s' := s1;
    } else {
      hide Do;
      ScanStep(known, c, fw, specs, i);
      AdoptGoes(s, w, n, known, specs, i, before + TouchedBy(AdoptedRows(known, c, specs, i, fw.nextId)));
      if Candidate(known, c, specs[i]) {
        var row := AdoptedRow(known, c, specs, i, s.nextId);
        AdoptedHasId(known, c, specs, i, s.nextId);
        GetsOn(s0, w, s1, Go(w));
        RecordedGoes(s1, w);
        var s2 := Do(s1, Go(w));
        PutKeepsKeyed(s.table, row);
        var rows := AdoptedRows(known, c, specs, i, fw.nextId);
        assert before + TouchedBy(rows + [row]) == before + TouchedBy(rows) + ChainsFor(row.rule);
        s' := ScansOn(s0, w, s2, n, known, fw, specs, i + 1, before);
      } else {
        s' := ScansOn(s0, w, s1, n, known, fw, specs, i + 1, before);
      }
    }
  }

  lemma PutKeepsKeyed(t: Table, row: Row)
    requires Keyed(t)
    ensures Keyed(t[row.id := row])
  {
  }

  lemma ScanGoes(s: System, w: nat, n: nat, known: Table, touched: set<Chain>)
    requires n <= 4 && IsScanning(s, w, n, known, touched)
    ensures var t := Do(s, Go(w));
            && FwOf(t) == FwOf(s) && t.lock == s.lock && t.halted == s.halted
            && t.pcs == s.pcs[w := if n < 4 then Adopting(n, known, s.live.At(TARGETS[n]), 0, touched)
                                   else Waiting(touched, true)]
  {
  }

  /** The next slot of a scan is passed over, or its rule is recorded and taken out of the chain. */
  lemma AdoptGoes(s: System, w: nat, n: nat, known: Table, specs: seq<LiveRule>, i: nat, touched: set<Chain>)
    requires n < 4 && i < |specs| && IsAdopting(s, w, n, known, specs, i, touched)
    ensures var c, t := TARGETS[n], Do(s, Go(w));
            if Candidate(known, c, specs[i]) then
              var row := AdoptedRow(known, c, specs, i, s.nextId);
              && FwOf(t) == Fw(s.table[row.id := row], s.nextId + 1, s.live) && t.lock == s.lock
              && t.halted == s.halted && t.pcs == s.pcs[w := Recorded(n, known, specs, i, touched, row)]
            else
              FwOf(t) == FwOf(s) && t.lock == s.lock && t.halted == s.halted
              && t.pcs == s.pcs[w := Adopting(n, known, specs, i + 1, touched)]
  {
    hide Candidate, AdoptedRow;
  }

  lemma RecordedGoes(s: System, w: nat)
    requires w < |s.pcs| && s.pcs[w].Recorded? && s.pcs[w].n < 4 && s.pcs[w].i < |s.pcs[w].specs|
    requires s.pcs[w].specs[s.pcs[w].i] in s.live.At(TARGETS[s.pcs[w].n])
    ensures var t, a := Do(s, Go(w)), s.pcs[w];
            && FwOf(t) == Fw(s.table, s.nextId, DeleteFrom(s.live, a.specs[a.i], TARGETS[a.n]))
            && t.lock == s.lock && t.halted == s.halted
            && t.pcs == s.pcs[w := Adopting(a.n, a.known, a.specs, a.i + 1, a.touched + ChainsFor(a.row.rule))]
  {
    hide ChainsFor, DeleteFrom;
  }

  lemma ScansOne(s0: System, w: nat, s: System, n: nat, known: Table, touched: set<Chain>) returns (s': System)
    requires n < 4 && IsScanning(s, w, n, known, touched) && Gets(s0, w, s)
    ensures Gets(s0, w, s') && OthersStay(s, s', w) && FwOf(s') == Scan(known, TARGETS[n], FwOf(s))
    ensures IsScanning(s', w, n + 1, known, touched + TouchedBy(ScanRows(known, TARGETS[n], FwOf(s))))
  {
    hide PartlyScanned, AdoptedRows, TouchedBy, Scan, Gets, Keyed, Do;
    ScanGoes(s, w, n, known, touched);
    var c, specs := TARGETS[n], s.live.At(TARGETS[n]);
    GetsOn(s0, w, s, Go(w));
    var s1 := Do(s, Go(w));
    ScanBegins(known, c, FwOf(s));
    assert touched + {} == touched;
    s' := ScansOn(s0, w, s1, n, known, FwOf(s), specs, 0, touched);
    ScanEnds(known, c, FwOf(s));
  }

  lemma {:induction false} ScansAll(s0: System, w: nat, s: System, n: nat) returns (s': System)
    requires n <= 4 && IsScanning(s, w, 0, s.table, {}) && Gets(s0, w, s)
    ensures Gets(s0, w, s') && OthersStay(s, s', w) && FwOf(s') == Scanned(FwOf(s), n).0
    ensures IsScanning(s', w, n, s.table, Scanned(FwOf(s), n).1)
  {
    hide Scan, ScanRows, TouchedBy, Gets, Keyed;
    if n == 0 {
      s' := s;
    } else {
      var s1 := ScansAll(s0, w, s, n - 1);
      s' := ScansOne(s0, w, s1, n - 1, s.table, Scanned(FwOf(s), n - 1).1);
    }
  }

  // ---------- the main results ----------

  /** The worker is done, the lock is free, and table, ids and chains are those. */
  ghost predicate EndsAs(s: System, s': System, w: nat, r: Reply) {
    && FwOf(s') == r.fw && s'.lock == None && s'.pcs == s.pcs && (s'.halted <==> s.halted || r.result == Broken)
  }

  ghost predicate Quiet(s: System, w: nat) {
    w < |s.pcs| && s.pcs[w] == Idle && s.lock == None && Keyed(s.table)
  }

  /** One command of an add, or its end. */
  lemma AddGoes(s: System, w: nat)
    requires w < |s.pcs| && s.pcs[w].Adding?
    ensures var t, a := Do(s, Go(w)), s.pcs[w];
            && t.table == s.table && t.nextId == s.nextId && t.lock == s.lock && t.halted == s.halted
            && if a.halves == [] then t.pcs == s.pcs[w := Idle] && t.live == s.live
               else t.pcs == s.pcs[w := Adding(a.row, a.halves[1..])] && t.live == AddTo(s.live, a.row, a.halves[0])
  {
    hide AddTo, Unfinished, Overtakes;
  }

  lemma AddBegins(s: System, w: nat, rule: Rule, note: string)
    requires Quiet(s, w) && Complete(rule) && !rule.ClientBlock?
    ensures var t := Do(s, Action.Add(w, rule, note));
            var row := Row(s.nextId, rule, note, true, MaxPosition(AllRows(s.table)) + 1.0);
            && FwOf(t) == Fw(s.table[s.nextId := row], s.nextId + 1, s.live)
            && t.lock == s.lock && t.halted == s.halted && t.pcs == s.pcs[w := Adding(row, Halves(rule))]
  {
    hide MaxPosition, AllRows, Halves;
  }

  /** An accepted add. */
  lemma AddAlone(env: Env, s: System, w: nat, who: Option<string>, rule: Rule, note: string) returns (s': System)
    requires Quiet(s, w) && Step(env, FwOf(s), who, Op.Add(rule, note)).result != Rejected
    ensures Gets(Do(s, Action.Add(w, rule, note)), w, s')
    ensures EndsAs(s, s', w, Step(env, FwOf(s), who, Op.Add(rule, note)))
  {
    hide Gets, MaxPosition, AllRows, AddTo, Do, LocksOut, SimulatedAdd;
    AddBegins(s, w, rule, note);
    var s1 := Do(s, Action.Add(w, rule, note));
    GetsItself(s1, w);
    GetsOn(s1, w, s1, Go(w));
    AddGoes(s1, w);
    var s2 := Do(s1, Go(w));
    GetsOn(s1, w, s2, Go(w));
    AddGoes(s2, w);
    s' := Do(s2, Go(w));
    if |Halves(rule)| == 2 {
      GetsOn(s1, w, s', Go(w));
      AddGoes(s', w);
      s' := Do(s', Go(w));
    }
  }

  lemma MoveBegins(s: System, w: nat, id: int, p: real)
    requires Quiet(s, w) && id in s.table
    ensures var t := Do(s, Move(w, id, p));
            && FwOf(t) == Fw(s.table[id := s.table[id].(position := p)], s.nextId, s.live)
            && t.lock == s.lock && t.halted == s.halted && Keyed(t.table)
            && t.pcs == s.pcs[w := Waiting(ChainsFor(s.table[id].rule), false)]
  {
  }

  /** A drag that is not refused. */
  lemma MoveAlone(env: Env, s: System, w: nat, who: Option<string>, id: int, target: int, side: Side)
    returns (s': System)
    requires Quiet(s, w) && CanReorder(s.table, id, target)
    requires Step(env, FwOf(s), who, Op.Reorder(id, target, side)).result != Rejected
    ensures Gets(Do(s, Move(w, id, DropPosition(s.table, id, target, side))), w, s')
    ensures EndsAs(s, s', w, Step(env, FwOf(s), who, Op.Reorder(id, target, side)))
  {
    hide Gets, DropPosition, Rebuilt, Reached, Stops, Do, LocksOut, SimulatedMove, ChainsFor, Visited, Keyed;
    InTable(s.table, id, target);
    hide CanReorder;
    var p := DropPosition(s.table, id, target, side);
    MoveBegins(s, w, id, p);
    var s1 := Do(s, Move(w, id, p));
    GetsItself(s1, w);
    s' := RebuildsAll(s1, w, s1, Visited(env, ChainsFor(s.table[id].rule)));
  }

  /** A toggle that switches on a row of an ordered kind. */
  lemma EnableAlone(env: Env, s: System, w: nat, who: Option<string>, id: int) returns (s': System)
    requires Quiet(s, w) && id in s.table && !s.table[id].enabled && !s.table[id].rule.ClientBlock?
    requires Step(env, FwOf(s), who, Toggle(id)).result != Rejected
    ensures Gets(Do(s, Enable(w, id)), w, s') && EndsAs(s, s', w, Step(env, FwOf(s), who, Toggle(id)))
  {
    hide Gets, Rebuilt, Reached, Stops, Proceed;
    var s1 := Do(s, Enable(w, id));
    GetsItself(s1, w);
    s' := RebuildsAll(s1, w, s1, Halves(s.table[id].rule));
  }

  /** The rebuilds of a resync, once it has applied the client blocks again. */
  lemma ResyncAlone(env: Env, s: System, w: nat, who: Option<string>, fw: Fw) returns (s': System)
    requires Quiet(s, w) && s.table == fw.table && s.nextId == fw.nextId && !env.hubMode
    requires s.live == ReapplyBlocks(fw.live, Sorted(EnabledRows(fw.table)))
    ensures Gets(Do(s, Action.Resync(w)), w, s') && EndsAs(s, s', w, Step(env, fw, who, Op.Resync))
  {
    hide Gets, Rebuilt, Reached, Stops, ReapplyBlocks, Sorted, EnabledRows, UsedChains, Visited, Keyed, Proceed;
    var s1 := Do(s, Action.Resync(w));
    GetsItself(s1, w);
    s' := RebuildsAll(s1, w, s1, Visited(env, UsedChains(s.table)));
  }

  lemma DiscoverBegins(s: System, w: nat)
    requires Quiet(s, w)
    ensures var t := Do(s, Action.Discover(w));
            && FwOf(t) == FwOf(s) && t.halted == s.halted && IsScanning(t, w, 0, s.table, {})
            && t.pcs == s.pcs[w := Scanning(0, s.table, {})]
  {
    hide Keyed;
  }

  /** A discovery. */
  lemma DiscoverAlone(env: Env, s: System, w: nat, who: Option<string>) returns (s': System)
    requires Quiet(s, w)
    ensures Gets(Do(s, Action.Discover(w)), w, s') && EndsAs(s, s', w, Step(env, FwOf(s), who, Op.Discover))
  {
    hide Gets, Rebuilt, Reached, Stops, Scanned, Keyed, Do, Visited;
    DiscoverBegins(s, w);
    var s1 := Do(s, Action.Discover(w));
    GetsItself(s1, w);
    var s2 := ScansAll(s1, w, s1, 4);
    GetsOn(s1, w, s2, Go(w));
    ScanGoes(s2, w, 4, s.table, Scanned(FwOf(s), 4).1);
    s' := RebuildsAll(s1, w, Do(s2, Go(w)), Visited(env, Scanned(FwOf(s), 4).1));
  }
}
