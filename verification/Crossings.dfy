/** When no rebuild stops, and the four ways in which adds and rebuilds go wrong together, each on a schedule. */
module Crossings {
  import opened Wrappers
  import opened Sequences
  import opened Rules
  import opened Discovery
  import opened Firewall
  import opened Mirror
  import opened Workers
  import opened Convergence

  // ---------- when a rebuild stops ----------

  /** Every listed port forward carries a port. */
  ghost predicate PortsGiven(rules: seq<LiveRule>) {
    forall r :: r in rules && r.target.DnatTo? ==> r.dport.Some?
  }

  /** Nothing a worker holds, and nothing in table or PREROUTING, lacks a port. */
  ghost predicate Ported(s: System) {
    && !s.halted && CompleteTable(s.table) && PortsGiven(s.live.prerouting) && Keyed(s.table)
    && (forall w :: 0 <= w < |s.pcs| ==> PortedPc(s.pcs[w]))
  }

  ghost predicate PortedPc(pc: Pc) {
    match pc
    case Adding(row, _) => Complete(row.rule)
    case Appending(_, rows, _, _, _) => forall r :: r in rows ==> Complete(r.rule)
    case Adopting(n, _, specs, _, _) => n == 2 ==> PortsGiven(specs)
    case Recorded(n, _, specs, _, _, row) => (n == 2 ==> PortsGiven(specs)) && Complete(row.rule)
    case _ => true
  }

  lemma AdoptsComplete(c: Chain, r: LiveRule)
    requires Adopt(c, r).Some? && (c == PREROUTING && r.target.DnatTo? ==> r.dport.Some?)
    ensures Complete(Adopt(c, r).value)
  {
  }

  lemma PrintsPorted(row: Row, c: Chain)
    requires Complete(row.rule) && !row.rule.ClientBlock?
    ensures c in ChainsFor(row.rule) && Printed(row, c).target.DnatTo? ==> Printed(row, c).dport.Some?
  {
  }

  /** What every step keeps by itself; the others are the worker's own place, table and PREROUTING. */
  lemma ProceedStaysPorted(s: System, w: nat)
    requires Inv(s) && Ported(s) && w < |s.pcs|
    ensures Ported(Proceed(s, w))
  {
    hide Inv, Proceed, PortsGiven, CompleteTable, PortedPc;
    KnowsItsIds(s);
    match s.pcs[w] {
      case Adding(_, _) => AddingStaysPorted(s, w);
      case Deleting(_, _, _, _, _) => DeletingStaysPorted(s, w);
      case Appending(_, _, _, _, _) => AppendingStaysPorted(s, w);
      case Adopting(_, _, _, _, _) => AdoptingStaysPorted(s, w);
      case Recorded(_, _, _, _, _, _) => RecordedStaysPorted(s, w);
      case _ => QuietStaysPorted(s, w);
    }
  }

  /** A step that changes neither table nor chains. */
  lemma QuietStaysPorted(s: System, w: nat)
    requires Ported(s) && w < |s.pcs|
    requires s.pcs[w].Idle? || s.pcs[w].Waiting? || s.pcs[w].Entered? || s.pcs[w].Scanning?
    ensures Ported(Proceed(s, w))
  {
    hide PortsGiven, CompleteTable;
    var s' := Proceed(s, w);
    assert PortedPc(s.pcs[w]);
    assert forall v :: 0 <= v < |s.pcs| && v != w ==> s'.pcs[v] == s.pcs[v];
    assert s.pcs[w].Scanning? && s'.pcs[w].Adopting? && s'.pcs[w].n == 2 ==> s'.pcs[w].specs == s.live.prerouting;
  }

  lemma AddingStaysPorted(s: System, w: nat)
    requires Inv(s) && Ported(s) && w < |s.pcs| && s.pcs[w].Adding?
    ensures Ported(Proceed(s, w))
  {
    hide ClaimAt, Leftover, Settled, Printed, CompleteTable, Complete, Unfinished, Overtakes;
    var s' := Proceed(s, w);
    assert Local(s, w) && PortedPc(s.pcs[w]);
    assert forall v :: 0 <= v < |s.pcs| && v != w ==> s'.pcs[v] == s.pcs[v];
    if s.pcs[w].halves != [] {
      assert s.pcs[w].halves[0] in s.pcs[w].halves;
      PrintsPorted(s.pcs[w].row, s.pcs[w].halves[0]);
    }
  }

  lemma DeletingStaysPorted(s: System, w: nat)
    requires Ported(s) && w < |s.pcs| && s.pcs[w].Deleting?
    ensures Ported(Proceed(s, w))
  {
    hide Complete, Ordered, PendingIds, Without, ChainsFor;
    var s' := Proceed(s, w);
    assert forall v :: 0 <= v < |s.pcs| && v != w ==> s'.pcs[v] == s.pcs[v];
    OrderedFacts(s.table, s.pcs[w].c);
  }

  lemma AppendingStaysPorted(s: System, w: nat)
    requires Inv(s) && Ported(s) && w < |s.pcs| && s.pcs[w].Appending?
    ensures Ported(Proceed(s, w))
  {
    hide ClaimAt, Leftover, Settled, Printed, CompleteTable, Complete;
    var s', rows, k := Proceed(s, w), s.pcs[w].rows, s.pcs[w].k;
    assert Local(s, w) && PortedPc(s.pcs[w]);
    assert forall v :: 0 <= v < |s.pcs| && v != w ==> s'.pcs[v] == s.pcs[v];
    if k < |rows| {
      assert rows[k] in rows;
      CompletePrints(rows[k].rule, s.pcs[w].c);
      PrintsAnywhere(rows[k], s.pcs[w].c);
    }
  }

  lemma AdoptingStaysPorted(s: System, w: nat)
    requires Ported(s) && w < |s.pcs| && s.pcs[w].Adopting?
    ensures Ported(Proceed(s, w))
  {
    hide PositionAt, Adopt, Complete;
    var s', pc := Proceed(s, w), s.pcs[w];
    assert PortedPc(pc);
    assert forall v :: 0 <= v < |s.pcs| && v != w ==> s'.pcs[v] == s.pcs[v];
    if pc.n < 4 && pc.i < |pc.specs| && Candidate(pc.known, TARGETS[pc.n], pc.specs[pc.i]) {
      assert pc.specs[pc.i] in pc.specs && (TARGETS[pc.n] == PREROUTING <==> pc.n == 2);
      AdoptsComplete(TARGETS[pc.n], pc.specs[pc.i]);
    }
  }

  lemma RecordedStaysPorted(s: System, w: nat)
    requires Ported(s) && w < |s.pcs| && s.pcs[w].Recorded?
    ensures Ported(Proceed(s, w))
  {
    hide Complete, Without, ChainsFor;
    var s' := Proceed(s, w);
    assert PortedPc(s.pcs[w]);
    assert forall v :: 0 <= v < |s.pcs| && v != w ==> s'.pcs[v] == s.pcs[v];
    assert forall r :: r in s'.live.prerouting ==> r in s.live.prerouting by { FewerRules(s, w); }
  }

  lemma FewerRules(s: System, w: nat)
    requires w < |s.pcs| && s.pcs[w].Recorded?
    ensures forall r :: r in Proceed(s, w).live.prerouting ==> r in s.live.prerouting
  {
    assert Proceed(s, w).live.prerouting == Proceed(s, w).live.At(PREROUTING);
    assert s.live.prerouting == s.live.At(PREROUTING);
  }

  lemma CompletePrints(r: Rule, c: Chain)
    requires Complete(r)
    ensures CanPrint(r, c)
  {
  }

  lemma PrintsAnywhere(row: Row, c: Chain)
    requires Complete(row.rule)
    ensures c == PREROUTING && Printed(row, c).target.DnatTo? ==> Printed(row, c).dport.Some?
  {
  }

  lemma DoStaysPorted(s: System, a: Action)
    requires Inv(s) && Ported(s) && (a.Outside? ==> PortsGiven(a.live.prerouting))
    ensures Ported(Do(s, a))
  {
    hide Inv, Proceed, MaxPosition, Complete;
    if a.Go? {
      if a.w < |s.pcs| { ProceedStaysPorted(s, a.w); }
    } else {
      var s' := Do(s, a);
      KnowsItsIds(s);
      forall v | 0 <= v < |s'.pcs|
        ensures PortedPc(s'.pcs[v])
      {
        assert v < |s.pcs| && (s'.pcs[v] == s.pcs[v] || s'.pcs[v].Waiting? || s'.pcs[v].Entered? || s'.pcs[v].Scanning?
                               || (s'.pcs[v].Adding? && a.Add? && s'.pcs[v].row.rule == a.rule));
      }
    }
  }

  lemma KnowsItsIds(s: System)
    requires Inv(s)
    ensures Keyed(s.table) && s.nextId !in s.table
  {
  }

  /** No rebuild ever stops if the table and the port forwards in PREROUTING have their ports at the start, and whoever
      edits the chains by hand gives one too. */
  lemma {:induction false} NeverHalts(s: System, schedule: seq<Action>)
    requires Start(s) && CompleteTable(s.table) && PortsGiven(s.live.prerouting)
    requires forall i :: 0 <= i < |schedule| && schedule[i].Outside? ==> PortsGiven(schedule[i].live.prerouting)
    ensures !Exec(s, schedule).halted && Ported(Exec(s, schedule)) && Inv(Exec(s, schedule))
  {
    hide Inv, Do, PortsGiven, CompleteTable;
    if schedule == [] {
      StartIsInv(s);
      KnowsItsIds(s);
    } else {
      var last := |schedule| - 1;
      var before := Exec(s, schedule[..last]);
      assert forall i :: 0 <= i < last ==> schedule[..last][i] == schedule[i];
      NeverHalts(s, schedule[..last]);
      DoKeepsInv(before, schedule[last]);
      assert Ported(Do(before, schedule[last])) by { DoStaysPorted(before, schedule[last]); }
    }
  }

  // ---------- the ways to go wrong, each on a schedule of two workers ----------

  const NOTHING := LiveChains([], [], [], [])

  /** Two workers that are responsible for INPUT. */
  ghost function Pair(
      t: Table, live: LiveChains, lock: Option<nat>, a: Pc, b: Pc, late: set<Chain>, crossed: set<Chain>): System
  {
    System(t, |t| + 1, live, lock, [a, b], {INPUT}, late, crossed, false)
  }

  /** The schedule leads from an empty system to this state. */
  ghost predicate Reaches(c: seq<Action>, s: System) {
    Exec(Pair(map[], NOTHING, None, Idle, Idle, {}, {}), c) == s
  }

  /** From an empty system the schedule leads to two idle workers, no stopped rebuild, and INPUT out of sync. */
  ghost predicate GoesWrong(schedule: seq<Action>) {
    var s := Pair(map[], NOTHING, None, Idle, Idle, {}, {});
    var t := Exec(s, schedule);
    Start(s) && AllIdle(t) && !t.halted && INPUT in t.covered && !ChainInSync(t.table, t.live, INPUT)
  }

  lemma Begin()
    ensures Reaches([], Pair(map[], NOTHING, None, Idle, Idle, {}, {}))
  {
  }

  lemma Next(c: seq<Action>, s: System, a: Action, s': System)
    requires Reaches(c, s) && Do(s, a) == s'
    ensures Reaches(c + [a], s')
  {
    hide Do;
    assert (c + [a])[..|c|] == c;
  }

  /** A schedule that ends crossed ends out of sync. */
  lemma EndsWrong(schedule: seq<Action>, t: Table, live: LiveChains, l: set<Chain>, x: set<Chain>)
    requires Reaches(schedule, Pair(t, live, None, Idle, Idle, l, x)) && INPUT in x
    ensures GoesWrong(schedule)
  {
    var s := Pair(map[], NOTHING, None, Idle, Idle, {}, {});
    UnusedIsEmpty(map[], INPUT);
    FilterNone(Owned, []);
    hide ChainInSync, Exec, Start;
    assert Start(s) by { FreshStarts(); }
    ConvergesIff(s, schedule, INPUT);
  }

  lemma FreshStarts()
    ensures Start(Pair(map[], NOTHING, None, Idle, Idle, {}, {}))
  {
    UnusedIsEmpty(map[], INPUT);
    FilterNone(Owned, []);
  }

  ghost function NewRow(t: Table, rule: Rule): Row {
    Row(|t| + 1, rule, "", true, MaxPosition(AllRows(t)) + 1.0)
  }

  lemma NewRowIs(t: Table, rule: Rule)
    ensures NewRow(t, rule).id == |t| + 1 && NewRow(t, rule).enabled && NewRow(t, rule).rule == rule
  {
  }

  /** A table of one INPUT row. */
  lemma OnlyRow(row: Row)
    requires row.id == 1 && row.enabled && row.rule.Input?
    ensures Ordered(map[1 := row], INPUT) == [row] && UsedChains(map[1 := row]) == {INPUT} && |map[1 := row]| == 1
    ensures AddTo(NOTHING, row, INPUT).input == [Printed(row, INPUT)] && Owned(Printed(row, INPUT))
  {
    OrderedIs(map[1 := row], INPUT, [row]);
  }

  // ---------- stretches of a schedule ----------

  /** The first worker commits an add. */
  lemma Commits(c: seq<Action>, t: Table, live: LiveChains, lock: Option<nat>, b: Pc, l: set<Chain>, x: set<Chain>,
                rule: Rule)
    requires rule.Input? && |t| + 1 !in t && Reaches(c, Pair(t, live, lock, Idle, b, l, x))
    ensures var row := NewRow(t, rule);
            Reaches(c + [Action.Add(0, rule, "")], Pair(t[row.id := row], live, lock, Adding(row, [INPUT]), b, l, x))
  {
    hide Reaches, MaxPosition;
    var row := NewRow(t, rule);
    Next(c, Pair(t, live, lock, Idle, b, l, x), Action.Add(0, rule, ""),
         Pair(t[row.id := row], live, lock, Adding(row, [INPUT]), b, l, x));
  }

  /** So does the second. */
  lemma OtherCommits(c: seq<Action>, t: Table, live: LiveChains, a: Pc, l: set<Chain>, x: set<Chain>, rule: Rule)
    requires rule.Input? && |t| + 1 !in t && Reaches(c, Pair(t, live, None, a, Idle, l, x))
    ensures var row := NewRow(t, rule);
            Reaches(c + [Action.Add(1, rule, "")], Pair(t[row.id := row], live, None, a, Adding(row, [INPUT]), l, x))
  {
    hide Reaches, MaxPosition;
    var row := NewRow(t, rule);
    Next(c, Pair(t, live, None, a, Idle, l, x), Action.Add(1, rule, ""),
         Pair(t[row.id := row], live, None, a, Adding(row, [INPUT]), l, x));
  }

  ghost predicate Crosses(s: System, id: int) {
    Unfinished(s, INPUT) != [] || Overtakes(s, id, INPUT)
  }

  /** The first worker appends what it has committed and is done. */
  lemma Appends(c: seq<Action>, t: Table, live: LiveChains, lock: Option<nat>, row: Row, b: Pc, l: set<Chain>,
                x: set<Chain>) returns (x': set<Chain>)
    requires Reaches(c, Pair(t, live, lock, Adding(row, [INPUT]), b, l, x))
    ensures Reaches(c + [Go(0), Go(0)], Pair(t, AddTo(live, row, INPUT), lock, Idle, b, l + {INPUT}, x'))
    ensures x <= x' && (Crosses(Pair(t, live, lock, Adding(row, [INPUT]), b, l, x), row.id) ==> INPUT in x')
  {
    hide Reaches, AddTo, Crosses, Pair, Do;
    var s := Pair(t, live, lock, Adding(row, [INPUT]), b, l, x);
    x' := x + if Crosses(s, row.id) then {INPUT} else {};
    var live', l' := AddTo(live, row, INPUT), l + {INPUT};
    AppendSteps(t, live, lock, row, b, l, x);
    AddDone(t, live', lock, row, b, b, l', x');
    Next(c, s, Go(0), Pair(t, live', lock, Adding(row, []), b, l', x'));
    Next(c + [Go(0)], Pair(t, live', lock, Adding(row, []), b, l', x'), Go(0), Pair(t, live', lock, Idle, b, l', x'));
    assert c + [Go(0)] + [Go(0)] == c + [Go(0), Go(0)];
  }

  lemma AppendSteps(t: Table, live: LiveChains, lock: Option<nat>, row: Row, b: Pc, l: set<Chain>, x: set<Chain>)
    ensures var s := Pair(t, live, lock, Adding(row, [INPUT]), b, l, x);
            Do(s, Go(0)) == Pair(t, AddTo(live, row, INPUT), lock, Adding(row, []), b, l + {INPUT},
                                 x + if Crosses(s, row.id) then {INPUT} else {})
    ensures var s := Pair(t, live, lock, b, Adding(row, [INPUT]), l, x);
            Do(s, Go(1)) == Pair(t, AddTo(live, row, INPUT), lock, b, Adding(row, []), l + {INPUT},
                                 x + if Crosses(s, row.id) then {INPUT} else {})
  {
    hide Do, AppendAdded;
    AppendIs(Pair(t, live, lock, Adding(row, [INPUT]), b, l, x), 0, row);
    AppendIs(Pair(t, live, lock, b, Adding(row, [INPUT]), l, x), 1, row);
    AppendedPair(t, live, lock, row, b, l, x);
  }

  lemma AppendIs(s: System, w: nat, row: Row)
    requires w < |s.pcs| && s.pcs[w] == Adding(row, [INPUT])
    ensures Do(s, Go(w)) == AppendAdded(s, w, row, INPUT, [])
  {
    hide AppendAdded;
    assert [INPUT][0] == INPUT && [INPUT][1..] == [];
  }

  lemma AppendedPair(t: Table, live: LiveChains, lock: Option<nat>, row: Row, b: Pc, l: set<Chain>, x: set<Chain>)
    ensures var s := Pair(t, live, lock, Adding(row, [INPUT]), b, l, x);
            AppendAdded(s, 0, row, INPUT, []) == Pair(t, AddTo(live, row, INPUT), lock, Adding(row, []), b, l + {INPUT},
                                                      x + if Crosses(s, row.id) then {INPUT} else {})
    ensures var s := Pair(t, live, lock, b, Adding(row, [INPUT]), l, x);
            AppendAdded(s, 1, row, INPUT, []) == Pair(t, AddTo(live, row, INPUT), lock, b, Adding(row, []), l + {INPUT},
                                                      x + if Crosses(s, row.id) then {INPUT} else {})
  {
    hide AddTo, Unfinished, Overtakes;
  }

  lemma AddDone(t: Table, live: LiveChains, lock: Option<nat>, row: Row, a: Pc, b: Pc, l: set<Chain>, x: set<Chain>)
    ensures Do(Pair(t, live, lock, Adding(row, []), b, l, x), Go(0)) == Pair(t, live, lock, Idle, b, l, x)
    ensures Do(Pair(t, live, lock, a, Adding(row, []), l, x), Go(1)) == Pair(t, live, lock, a, Idle, l, x)
  {
  }

  /** So does the second. */
  lemma OtherAppends(c: seq<Action>, t: Table, live: LiveChains, row: Row, a: Pc, l: set<Chain>, x: set<Chain>)
      returns (x': set<Chain>)
    requires Reaches(c, Pair(t, live, None, a, Adding(row, [INPUT]), l, x))
    ensures Reaches(c + [Go(1), Go(1)], Pair(t, AddTo(live, row, INPUT), None, a, Idle, l + {INPUT}, x'))
    ensures x <= x' && (Crosses(Pair(t, live, None, a, Adding(row, [INPUT]), l, x), row.id) ==> INPUT in x')
  {
    hide Reaches, AddTo, Crosses, Pair, Do;
    var s := Pair(t, live, None, a, Adding(row, [INPUT]), l, x);
    x' := x + if Crosses(s, row.id) then {INPUT} else {};
    var live', l' := AddTo(live, row, INPUT), l + {INPUT};
    AppendSteps(t, live, None, row, a, l, x);
    AddDone(t, live', None, row, a, a, l', x');
    Next(c, s, Go(1), Pair(t, live', None, a, Adding(row, []), l', x'));
    Next(c + [Go(1)], Pair(t, live', None, a, Adding(row, []), l', x'), Go(1), Pair(t, live', None, a, Idle, l', x'));
    assert c + [Go(1)] + [Go(1)] == c + [Go(1), Go(1)];
  }

  ghost function Clearing(specs: seq<LiveRule>, i: nat): Pc {
    Deleting(INPUT, specs, i, {INPUT}, false)
  }

  ghost function Rebuilding(row: Row, k: nat): Pc {
    Appending(INPUT, [row], k, {INPUT}, false)
  }

  /** The second worker resyncs: it takes the lock and lists the chain. */
  lemma ListsChain(c: seq<Action>, t: Table, live: LiveChains, a: Pc, l: set<Chain>, x: set<Chain>)
    requires UsedChains(t) == {INPUT} && Reaches(c, Pair(t, live, None, a, Idle, l, x))
    ensures Reaches(c + [Action.Resync(1), Enter(1, INPUT), Go(1)],
                    Pair(t, live, Some(1), a, Clearing(live.input, 0), l - {INPUT}, x))
  {
    hide Reaches, UsedChains;
    assert {INPUT} + {INPUT} == {INPUT};
    var waiting := Pair(t, live, None, a, Waiting({INPUT}, false), l, x);
    var entered := Pair(t, live, Some(1), a, Entered(INPUT, {INPUT}, false), l, x);
    Next(c, Pair(t, live, None, a, Idle, l, x), Action.Resync(1), waiting);
    Next(c + [Action.Resync(1)], waiting, Enter(1, INPUT), entered);
    assert c + [Action.Resync(1)] + [Enter(1, INPUT)] == c + [Action.Resync(1), Enter(1, INPUT)];
    Next(c + [Action.Resync(1), Enter(1, INPUT)], entered, Go(1),
         Pair(t, live, Some(1), a, Clearing(live.input, 0), l - {INPUT}, x));
    assert c + [Action.Resync(1), Enter(1, INPUT)] + [Go(1)] == c + [Action.Resync(1), Enter(1, INPUT), Go(1)];
  }

  lemma DeletesOne(c: seq<Action>, t: Table, live: LiveChains, a: Pc, r: LiveRule, l: set<Chain>, x: set<Chain>)
    requires Owned(r) && Reaches(c, Pair(t, live, Some(1), a, Clearing([r], 0), l, x))
    ensures Reaches(c + [Go(1)], Pair(t, DeleteFrom(live, r, INPUT), Some(1), a, Clearing([r], 1), l, x))
  {
    hide Reaches, DeleteFrom;
    Next(c, Pair(t, live, Some(1), a, Clearing([r], 0), l, x), Go(1),
         Pair(t, DeleteFrom(live, r, INPUT), Some(1), a, Clearing([r], 1), l, x));
  }

  /** It reads its one row. */
  lemma Reads(c: seq<Action>, t: Table, live: LiveChains, a: Pc, specs: seq<LiveRule>, row: Row, l: set<Chain>,
              x: set<Chain>) returns (x': set<Chain>)
    requires Ordered(t, INPUT) == [row] && Reaches(c, Pair(t, live, Some(1), a, Clearing(specs, |specs|), l, x))
    ensures Reaches(c + [Go(1)], Pair(t, live, Some(1), a, Rebuilding(row, 0), l, x'))
    ensures INPUT in l || (a.Adding? && a.halves == [INPUT]) ==> INPUT in x'
  {
    hide Reaches, Ordered, Do, ReadRows, PendingIds;
    var s := Pair(t, live, Some(1), a, Clearing(specs, |specs|), l, x);
    ReadIs(s, specs);
    x' := x - {INPUT} + if INPUT in l || (exists q :: q in PendingIds(s, INPUT)) then {INPUT} else {};
    if a.Adding? && a.halves == [INPUT] { FirstIsPending(s, a.row); }
    ReadPair(t, live, a, specs, row, l, x);
    Next(c, s, Go(1), Pair(t, live, Some(1), a, Rebuilding(row, 0), l, x'));
  }

  lemma ReadIs(s: System, specs: seq<LiveRule>)
    requires |s.pcs| == 2 && s.pcs[1] == Clearing(specs, |specs|)
    ensures Do(s, Go(1)) == ReadRows(s, 1, INPUT, {INPUT}, false)
  {
    hide ReadRows;
  }

  lemma ReadPair(t: Table, live: LiveChains, a: Pc, specs: seq<LiveRule>, row: Row, l: set<Chain>, x: set<Chain>)
    requires Ordered(t, INPUT) == [row]
    ensures var s := Pair(t, live, Some(1), a, Clearing(specs, |specs|), l, x);
            ReadRows(s, 1, INPUT, {INPUT}, false)
            == Pair(t, live, Some(1), a, Rebuilding(row, 0), l,
                    x - {INPUT} + if INPUT in l || (exists q :: q in PendingIds(s, INPUT)) then {INPUT} else {})
  {
    hide Ordered, PendingIds;
  }

  lemma FirstIsPending(s: System, row: Row)
    requires |s.pcs| > 0 && s.pcs[0] == Adding(row, [INPUT])
    ensures row.id in PendingIds(s, INPUT)
  {
    assert s.pcs[0].Adding? && INPUT in s.pcs[0].halves;
  }

  /** It appends that row, leaves the chain, and leaves the call. */
  lemma Finishes(c: seq<Action>, t: Table, live: LiveChains, a: Pc, row: Row, l: set<Chain>, x: set<Chain>)
    requires row.rule.Input? && Reaches(c, Pair(t, live, Some(1), a, Rebuilding(row, 0), l, x))
    ensures Reaches(c + [Go(1), Go(1), Go(1)], Pair(t, AddTo(live, row, INPUT), None, a, Idle, l, x))
  {
    hide Reaches, AddTo;
    assert {INPUT} - {INPUT} == {};
    var appended := Pair(t, AddTo(live, row, INPUT), Some(1), a, Rebuilding(row, 1), l, x);
    var left := Pair(t, AddTo(live, row, INPUT), None, a, Waiting({}, false), l, x);
    Next(c, Pair(t, live, Some(1), a, Rebuilding(row, 0), l, x), Go(1), appended);
    Next(c + [Go(1)], appended, Go(1), left);
    assert c + [Go(1)] + [Go(1)] == c + [Go(1), Go(1)];
    Next(c + [Go(1), Go(1)], left, Go(1), Pair(t, AddTo(live, row, INPUT), None, a, Idle, l, x));
    assert c + [Go(1), Go(1)] + [Go(1)] == c + [Go(1), Go(1), Go(1)];
  }

  lemma AddFirst(rule: Rule) returns (row: Row)
    requires rule.Input?
    ensures row.id == 1 && row.enabled && row.rule == rule
    ensures Reaches([Action.Add(0, rule, "")],
                    Pair(map[1 := row], NOTHING, None, Adding(row, [INPUT]), Idle, {}, {}))
  {
    hide Reaches, Pair, NewRow;
    row := NewRow(map[], rule);
    NewRowIs(map[], rule);
    Begin();
    Commits([], map[], NOTHING, None, Idle, {}, {}, rule);
    assert [] + [Action.Add(0, rule, "")] == [Action.Add(0, rule, "")];
  }

  // ---------- the four schedules ----------

  /** Two adds whose appends overtake one another: no rebuild is needed to go wrong. */
  lemma AddOvertakesAdd(rule: Rule)
    requires rule.Input?
    ensures GoesWrong([Action.Add(0, rule, ""), Action.Add(1, rule, ""), Go(1), Go(1), Go(0), Go(0)])
  {
    hide Reaches, Pair, GoesWrong, AddTo, NewRow, Crosses;
    var a := AddFirst(rule);
    OnlyRow(a);
    var t := map[1 := a];
    var b := NewRow(t, rule);
    NewRowIs(t, rule);
    var c1, c2 := [Action.Add(0, rule, "")], [Action.Add(0, rule, "")] + [Action.Add(1, rule, "")];
    OtherCommits(c1, t, NOTHING, Adding(a, [INPUT]), {}, {}, rule);
    Overtaken(t[2 := b], NOTHING, a, b);
    var x1 := OtherAppends(c2, t[2 := b], NOTHING, b, Adding(a, [INPUT]), {}, {});
    var live := AddTo(NOTHING, b, INPUT);
    var x2 := Appends(c2 + [Go(1), Go(1)], t[2 := b], live, None, a, Idle, {} + {INPUT}, x1);
    var c := c2 + [Go(1), Go(1)] + [Go(0), Go(0)];
    assert c == [Action.Add(0, rule, ""), Action.Add(1, rule, ""), Go(1), Go(1), Go(0), Go(0)];
    EndsWrong(c, t[2 := b], AddTo(live, a, INPUT), {} + {INPUT} + {INPUT}, x2);
  }

  lemma Overtaken(t: Table, live: LiveChains, a: Row, b: Row)
    requires a.id < b.id
    ensures Crosses(Pair(t, live, None, Adding(a, [INPUT]), Adding(b, [INPUT]), {}, {}), b.id)
  {
    var s := Pair(t, live, None, Adding(a, [INPUT]), Adding(b, [INPUT]), {}, {});
    assert s.pcs[0].Adding? && INPUT in s.pcs[0].halves && s.pcs[0].row.id == a.id;
    assert a.id in PendingIds(s, INPUT);
  }

  /** A rebuild reads its rows between an add's commit and its append: the new rule is live twice. */
  lemma ReadBetweenCommitAndAppend(rule: Rule)
    requires rule.Input?
    ensures GoesWrong([Action.Add(0, rule, ""), Action.Resync(1), Enter(1, INPUT), Go(1), Go(1), Go(1), Go(1), Go(1),
              Go(0), Go(0)])
  {
    hide Reaches, Pair, GoesWrong, AddTo, Clearing, Rebuilding, Crosses;
    var a := AddFirst(rule);
    OnlyRow(a);
    var t, pc := map[1 := a], Adding(a, [INPUT]);
    var c1 := [Action.Add(0, rule, "")];
    ListsChain(c1, t, NOTHING, pc, {}, {});
    var c2 := c1 + [Action.Resync(1), Enter(1, INPUT), Go(1)];
    var x := Reads(c2, t, NOTHING, pc, [], a, {} - {INPUT}, {});
    Finishes(c2 + [Go(1)], t, NOTHING, pc, a, {} - {INPUT}, x);
    var c3 := c2 + [Go(1)] + [Go(1), Go(1), Go(1)];
    var live := AddTo(NOTHING, a, INPUT);
    var x' := Appends(c3, t, live, None, a, Idle, {} - {INPUT}, x);
    var c := c3 + [Go(0), Go(0)];
    assert c == [Action.Add(0, rule, ""), Action.Resync(1), Enter(1, INPUT), Go(1), Go(1), Go(1), Go(1), Go(1),
        Go(0), Go(0)];
    EndsWrong(c, t, AddTo(live, a, INPUT), {} - {INPUT} + {INPUT}, x');
  }

  /** An append falls behind a rebuild's listing and before its read: the new rule is live twice. */
  lemma AppendBetweenListingAndRead(rule: Rule)
    requires rule.Input?
    ensures GoesWrong([Action.Add(0, rule, ""), Action.Resync(1), Enter(1, INPUT), Go(1), Go(0), Go(0), Go(1), Go(1),
              Go(1), Go(1)])
  {
    hide Reaches, Pair, GoesWrong, AddTo, Clearing, Rebuilding, Crosses;
    var a := AddFirst(rule);
    OnlyRow(a);
    var t := map[1 := a];
    var c1 := [Action.Add(0, rule, "")];
    ListsChain(c1, t, NOTHING, Adding(a, [INPUT]), {}, {});
    var c2 := c1 + [Action.Resync(1), Enter(1, INPUT), Go(1)];
    var x := Appends(c2, t, NOTHING, Some(1), a, Clearing([], 0), {} - {INPUT}, {});
    var live, l := AddTo(NOTHING, a, INPUT), {} - {INPUT} + {INPUT};
    var c3 := c2 + [Go(0), Go(0)];
    var x' := Reads(c3, t, live, Idle, [], a, l, x);
    Finishes(c3 + [Go(1)], t, live, Idle, a, l, x');
    var c := c3 + [Go(1)] + [Go(1), Go(1), Go(1)];
    assert c == [Action.Add(0, rule, ""), Action.Resync(1), Enter(1, INPUT), Go(1), Go(0), Go(0), Go(1), Go(1),
        Go(1), Go(1)];
    EndsWrong(c, t, AddTo(live, a, INPUT), l, x');
  }

  /** An append falls between a rebuild's read and its last append: the new rule is live in front of an older one. */
  lemma AppendBeforeLastAppend(rule: Rule)
    requires rule.Input?
    ensures GoesWrong([Action.Add(0, rule, ""), Go(0), Go(0), Action.Resync(1), Enter(1, INPUT), Go(1), Go(1), Go(1),
                       Action.Add(0, rule, ""), Go(0), Go(0), Go(1), Go(1), Go(1)])
  {
    hide Reaches, GoesWrong;
    var a, live, l, x := RebuildsUpToRead(rule);
    var before := [Action.Add(0, rule, ""), Go(0), Go(0), Action.Resync(1), Enter(1, INPUT), Go(1), Go(1), Go(1)];
    AppendedInside(rule, a, live, l, x, before);
    assert before + [Action.Add(0, rule, ""), Go(0), Go(0), Go(1), Go(1), Go(1)]
        == [Action.Add(0, rule, ""), Go(0), Go(0), Action.Resync(1), Enter(1, INPUT), Go(1), Go(1), Go(1),
            Action.Add(0, rule, ""), Go(0), Go(0), Go(1), Go(1), Go(1)];
  }

  /** The first half: an add, and behind it a resync that has read the row. */
  lemma RebuildsUpToRead(rule: Rule) returns (a: Row, live: LiveChains, l: set<Chain>, x: set<Chain>)
    requires rule.Input?
    ensures a.rule.Input? && |map[1 := a]| == 1
    ensures Reaches([Action.Add(0, rule, ""), Go(0), Go(0), Action.Resync(1), Enter(1, INPUT), Go(1), Go(1), Go(1)],
                    Pair(map[1 := a], live, Some(1), Idle, Rebuilding(a, 0), l, x))
  {
    hide Reaches, Pair, AddTo, DeleteFrom, Clearing, Rebuilding, Crosses, Printed, Owned, Ordered, UsedChains;
    a := AddFirst(rule);
    OnlyRow(a);
    var t, r := map[1 := a], Printed(a, INPUT);
    var first := AddTo(NOTHING, a, INPUT);
    var c1 := [Action.Add(0, rule, "")];
    var x1 := Appends(c1, t, NOTHING, None, a, Idle, {}, {});
    ListsChain(c1 + [Go(0), Go(0)], t, first, Idle, {} + {INPUT}, x1);
    var c2 := c1 + [Go(0), Go(0)] + [Action.Resync(1), Enter(1, INPUT), Go(1)];
    l := {} + {INPUT} - {INPUT};
    DeletesOne(c2, t, first, Idle, r, l, x1);
    live := DeleteFrom(first, r, INPUT);
    x := Reads(c2 + [Go(1)], t, live, Idle, [r], a, l, x1);
    assert c2 + [Go(1)] + [Go(1)]
        == [Action.Add(0, rule, ""), Go(0), Go(0), Action.Resync(1), Enter(1, INPUT), Go(1), Go(1), Go(1)];
  }

  /** The second half: the add crosses the rebuild that has one row left. */
  lemma AppendedInside(rule: Rule, a: Row, live: LiveChains, l: set<Chain>, x: set<Chain>, before: seq<Action>)
    requires rule.Input? && a.rule.Input? && |map[1 := a]| == 1
    requires Reaches(before, Pair(map[1 := a], live, Some(1), Idle, Rebuilding(a, 0), l, x))
    ensures GoesWrong(before + [Action.Add(0, rule, ""), Go(0), Go(0), Go(1), Go(1), Go(1)])
  {
    hide Reaches, Pair, GoesWrong, AddTo, Rebuilding, Crosses, NewRow;
    var t := map[1 := a];
    var b := NewRow(t, rule);
    NewRowIs(t, rule);
    Commits(before, t, live, Some(1), Rebuilding(a, 0), l, x, rule);
    OneRowLeft(t[2 := b], live, b, a, l, x);
    var c1 := before + [Action.Add(0, rule, "")];
    var x' := Appends(c1, t[2 := b], live, Some(1), b, Rebuilding(a, 0), l, x);
    var c2 := c1 + [Go(0), Go(0)];
    Finishes(c2, t[2 := b], AddTo(live, b, INPUT), Idle, a, l + {INPUT}, x');
    var c := c2 + [Go(1), Go(1), Go(1)];
    assert c == before + [Action.Add(0, rule, ""), Go(0), Go(0), Go(1), Go(1), Go(1)];
    EndsWrong(c, t[2 := b], AddTo(AddTo(live, b, INPUT), a, INPUT), l + {INPUT}, x');
  }

  lemma OneRowLeft(t: Table, live: LiveChains, b: Row, a: Row, l: set<Chain>, x: set<Chain>)
    ensures Crosses(Pair(t, live, Some(1), Adding(b, [INPUT]), Rebuilding(a, 0), l, x), b.id)
  {
  }
}
