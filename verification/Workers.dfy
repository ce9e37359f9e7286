/** Concurrent workers that add, drag, enable, resync and discover, one command or database transaction at a time. */
module Workers {
  import opened Wrappers
  import opened Sequences
  import opened Rules
  import opened Discovery
  import opened Firewall
  import opened Mirror

  /** Where a worker stands.  `todo` holds the chains it still has to rebuild, the current one included;
      `keep` tells a discovery, which holds the rebuild lock throughout, from the callers that take it chain by chain.
      An add has committed its row and still has commands to issue, outside the lock. */
  datatype Pc =
    | Idle
    | Adding(row: Row, halves: seq<Chain>)
    | Waiting(todo: set<Chain>, keep: bool)
    | Entered(c: Chain, todo: set<Chain>, keep: bool)
    | Deleting(c: Chain, specs: seq<LiveRule>, i: nat, todo: set<Chain>, keep: bool)
    | Appending(c: Chain, rows: seq<Row>, k: nat, todo: set<Chain>, keep: bool)
    | Scanning(n: nat, known: Table, touched: set<Chain>)
    | Adopting(n: nat, known: Table, specs: seq<LiveRule>, i: nat, touched: set<Chain>)
    | Recorded(n: nat, known: Table, specs: seq<LiveRule>, i: nat, touched: set<Chain>, row: Row)

  /** The shared database and chains, the lock file and the workers.  The rest is bookkeeping: the chains some worker
      has been responsible for; those an add appended to since a rebuild listed them; those whose last rebuild was
      crossed by an add, or where one add overtook another since; and whether some rebuild stopped at a row it could
      not print. */
  datatype System = System(
    table: Table, nextId: int, live: LiveChains, lock: Option<nat>, pcs: seq<Pc>,
    covered: set<Chain>, late: set<Chain>, crossed: set<Chain>, halted: bool)

  /** What can happen next.  Go lets a worker take its next internal step; Outside is any edit of the live chains
      that leaves the numerically tagged rules alone: client blocks, or an administrator at the shell. */
  datatype Action =
    | Add(w: nat, rule: Rule, note: string)
    | Move(w: nat, id: int, position: real)
    | Enable(w: nat, id: int)
    | Resync(w: nat)
    | Discover(w: nat)
    | Enter(w: nat, c: Chain)
    | Go(w: nat)
    | Outside(live: LiveChains)

  ghost function Become(s: System, w: nat, pc: Pc): System
    requires w < |s.pcs|
  {
    s.(pcs := s.pcs[w := pc])
  }

  ghost predicate SameTagged(a: LiveChains, b: LiveChains) {
    forall c :: Filter(Owned, a.At(c)) == Filter(Owned, b.At(c))
  }

  /** The rows an add has committed and not yet appended to chain c. */
  ghost function PendingIds(s: System, c: Chain): set<int> {
    set v | 0 <= v < |s.pcs| && s.pcs[v].Adding? && c in s.pcs[v].halves :: s.pcs[v].row.id
  }

  /** The rows the rebuild of chain c in progress has read and not yet appended. */
  ghost function Unfinished(s: System, c: Chain): seq<Row> {
    if s.lock.Some? && s.lock.value < |s.pcs| && s.pcs[s.lock.value].Appending? && s.pcs[s.lock.value].c == c
       && s.pcs[s.lock.value].k <= |s.pcs[s.lock.value].rows|
    then s.pcs[s.lock.value].rows[s.pcs[s.lock.value].k..]
    else []
  }

  ghost predicate Overtakes(s: System, id: int, c: Chain) {
    exists q :: q in PendingIds(s, c) && q < id
  }

  /** The database commit of a drag or of an enable; the rebuilds are still to come. */
  ghost function Commit(s: System, w: nat, row: Row): System
    requires w < |s.pcs|
  {
    Become(s, w, Waiting(ChainsFor(row.rule), false))
      .(table := s.table[row.id := row], covered := s.covered + ChainsFor(row.rule))
  }

  /** The database commit of an add: a new row on top. */
  ghost function CommitAdd(s: System, w: nat, rule: Rule, note: string): System
    requires w < |s.pcs|
  {
    var row := Row(s.nextId, rule, note, true, MaxPosition(AllRows(s.table)) + 1.0);
    Become(s, w, Adding(row, Halves(rule))).(table := s.table[row.id := row], nextId := s.nextId + 1)
  }

  /** The next command of an add, -A into its next chain. */
  ghost function AppendAdded(s: System, w: nat, row: Row, c: Chain, rest: seq<Chain>): System
    requires w < |s.pcs|
  {
    Become(s, w, Adding(row, rest))
      .(live := AddTo(s.live, row, c), late := s.late + {c},
        crossed := s.crossed + if Unfinished(s, c) != [] || Overtakes(s, row.id, c) then {c} else {})
  }

  /** A rebuild has deleted what it listed and reads its rows. */
  ghost function ReadRows(s: System, w: nat, c: Chain, todo: set<Chain>, keep: bool): System
    requires w < |s.pcs|
  {
    Become(s, w, Appending(c, Ordered(s.table, c), 0, todo, keep))
      .(crossed := s.crossed - {c} + if c in s.late || (exists q :: q in PendingIds(s, c)) then {c} else {})
  }

  /** One internal step of a worker. */
  ghost function Proceed(s: System, w: nat): System
    requires w < |s.pcs|
  {
    match s.pcs[w]
    case Idle => s
    case Adding(row, halves) =>
      if halves == [] then Become(s, w, Idle) else AppendAdded(s, w, row, halves[0], halves[1..])
    case Waiting(todo, keep) =>
      if todo != {} then s
      else Become(s, w, Idle).(lock := if keep then None else s.lock)
    case Entered(c, todo, keep) =>
      Become(s, w, Deleting(c, s.live.At(c), 0, todo, keep)).(late := s.late - {c})
    case Deleting(c, specs, i, todo, keep) =>
      if i < |specs| then
        Become(s, w, Deleting(c, specs, i + 1, todo, keep))
          .(live := if Owned(specs[i]) then DeleteFrom(s.live, specs[i], c) else s.live)
      else ReadRows(s, w, c, todo, keep)
    case Appending(c, rows, k, todo, keep) =>
      if k >= |rows| then Become(s, w, Waiting(todo - {c}, keep)).(lock := if keep then s.lock else None)
      else if CanPrint(rows[k].rule, c) then
        Become(s, w, Appending(c, rows, k + 1, todo, keep)).(live := AddTo(s.live, rows[k], c))
      else
        // the exception ends the call and releases the lock
        Become(s, w, Idle).(lock := None, halted := true)
    case Scanning(n, known, touched) =>
      if n < 4 then Become(s, w, Adopting(n, known, s.live.At(TARGETS[n]), 0, touched))
      else Become(s, w, Waiting(touched, true))
    case Adopting(n, known, specs, i, touched) =>
      if n >= 4 || i >= |specs| then Become(s, w, Scanning(n + 1, known, touched))
      else if !Candidate(known, TARGETS[n], specs[i]) then Become(s, w, Adopting(n, known, specs, i + 1, touched))
      else
        var row := AdoptedRow(known, TARGETS[n], specs, i, s.nextId);
        Become(s, w, Recorded(n, known, specs, i, touched, row))
          .(table := s.table[row.id := row], nextId := s.nextId + 1)
    case Recorded(n, known, specs, i, touched, row) =>
      if n < 4 && i < |specs| && specs[i] in s.live.At(TARGETS[n]) then
        Become(s, w, Adopting(n, known, specs, i + 1, touched + ChainsFor(row.rule)))
          .(live := DeleteFrom(s.live, specs[i], TARGETS[n]), covered := s.covered + ChainsFor(row.rule))
      else
        // the original is gone: the row is taken back
        Become(s, w, Adopting(n, known, specs, i + 1, touched)).(table := s.table - {row.id})
  }

  /** An action that is not possible in a state changes nothing. */
  ghost function Do(s: System, a: Action): System {
    match a
    case Outside(live) => if SameTagged(live, s.live) then s.(live := live) else s
    case Go(w) => if w < |s.pcs| then Proceed(s, w) else s
    case Enter(w, c) =>
      if w < |s.pcs| && s.pcs[w].Waiting? && c in s.pcs[w].todo && (s.pcs[w].keep || s.lock == None) then
        Become(s, w, Entered(c, s.pcs[w].todo, s.pcs[w].keep)).(lock := Some(w))
      else s
    case Add(w, rule, note) =>
      if w < |s.pcs| && s.pcs[w].Idle? && Complete(rule) && !rule.ClientBlock? then CommitAdd(s, w, rule, note) else s
    case Move(w, id, p) =>
      if w < |s.pcs| && s.pcs[w].Idle? && id in s.table then Commit(s, w, s.table[id].(position := p)) else s
    case Enable(w, id) =>
      if w < |s.pcs| && s.pcs[w].Idle? && id in s.table then Commit(s, w, s.table[id].(enabled := true)) else s
    case Resync(w) =>
      if w < |s.pcs| && s.pcs[w].Idle? then
        Become(s, w, Waiting(UsedChains(s.table), false)).(covered := s.covered + UsedChains(s.table))
      else s
    case Discover(w) =>
      if w < |s.pcs| && s.pcs[w].Idle? && s.lock == None then
        Become(s, w, Scanning(0, s.table, {})).(lock := Some(w))
      else s
  }

  ghost function Exec(s: System, schedule: seq<Action>): System {
    if schedule == [] then s
    else Do(Exec(s, schedule[..|schedule| - 1]), schedule[|schedule| - 1])
  }

  ghost predicate AllIdle(s: System) {
    forall w :: 0 <= w < |s.pcs| ==> s.pcs[w].Idle?
  }

  ghost predicate Start(s: System) {
    && WellKept(Fw(s.table, s.nextId, s.live)) && s.lock == None && AllIdle(s) && !s.halted
    && forall c :: c in s.covered ==> c !in s.crossed && ChainInSync(s.table, s.live, c)
  }
}
