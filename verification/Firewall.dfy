/** What each operation of the rule engine does to the rule table and to the live chains. */
module Firewall {
  import opened Wrappers
  import opened Sequences
  import opened Rules
  import opened Lockout
  import opened Discovery

  /** The database table, its id sequence, and the live chains. */
  datatype Fw = Fw(table: Table, nextId: int, live: LiveChains)

  /** Rows are stored under their own ids, and the id sequence is ahead of them. */
  ghost predicate WellKept(fw: Fw) {
    Keyed(fw.table) && forall id :: id in fw.table ==> id < fw.nextId
  }

  // ---------- iptables commands ----------

  /** The chains a rule's commands go to, in the order they are issued. */
  function Halves(r: Rule): seq<Chain> {
    match r
    case Forward(_, _, _, _, _) => [FORWARD]
    case Input(_, _, _, _) => [INPUT]
    case PortForward(_, _, _, _, _) => [PREROUTING, FORWARD]
    case Masquerade(_, _) => [POSTROUTING]
    case Snat(_, _, _) => [POSTROUTING]
    case ClientBlock(_, _) => [FORWARD, INPUT]
  }

  lemma HalvesDiffer(r: Rule)
    ensures forall i, j :: 0 <= i < j < |Halves(r)| ==> Halves(r)[i] != Halves(r)[j]
  {
  }

  /** -A for every kind except client blocks, which use -I. */
  function AddTo(live: LiveChains, row: Row, c: Chain): LiveChains {
    live.Put(c, if row.rule.ClientBlock? then [Printed(row, c)] + live.At(c) else live.At(c) + [Printed(row, c)])
  }

  function Apply(live: LiveChains, row: Row): LiveChains {
    var h := Halves(row.rule);
    if |h| == 1 then AddTo(live, row, h[0]) else AddTo(AddTo(live, row, h[0]), row, h[1])
  }

  /** -D takes out the first equal rule and fails when there is none. */
  function DeleteFrom(live: LiveChains, r: LiveRule, c: Chain): LiveChains {
    live.Put(c, Without(live.At(c), r))
  }

  /** -D for one half of a row: fails when the command cannot be built or the rule is not there. */
  predicate Deletable(live: LiveChains, row: Row, c: Chain) {
    CanPrint(row.rule, c) && Printed(row, c) in live.At(c)
  }

  /** Both deletions of a two-chain kind; the second is not issued when the first fails. */
  function Unapply(live: LiveChains, row: Row): (LiveChains, bool) {
    var h := Halves(row.rule);
    if !Deletable(live, row, h[0]) then (live, false)
    else
      var first := DeleteFrom(live, Printed(row, h[0]), h[0]);
      if |h| == 1 then (first, true)
      else if !Deletable(first, row, h[1]) then (first, false)
      else (DeleteFrom(first, Printed(row, h[1]), h[1]), true)
  }

  /** Does taking the row out end at a command that cannot be built? */
  predicate UnapplyBreaks(live: LiveChains, row: Row) {
    var h := Halves(row.rule);
    !CanPrint(row.rule, h[0]) || (|h| > 1 && Deletable(live, row, h[0]) && !CanPrint(row.rule, h[1]))
  }

  // ---------- rebuilding ----------

  /** The rows in front of the first one whose command cannot be built. */
  function PrintableFront(rows: seq<Row>, c: Chain): (r: seq<Row>)
    ensures r <= rows && (|r| < |rows| ==> !CanPrint(rows[|r|].rule, c))
    ensures forall k :: 0 <= k < |r| ==> CanPrint(r[k].rule, c)
  {
    if rows == [] || !CanPrint(rows[0].rule, c) then [] else [rows[0]] + PrintableFront(rows[1..], c)
  }

  /** A rebuild of this chain stops before its end. */
  ghost predicate Stuck(t: Table, c: Chain) {
    PrintableFront(Ordered(t, c), c) != Ordered(t, c)
  }

  /** One chain after a rebuild: the rules that carry no numeric tag, then the enabled rows in order, as far as they can
      be printed. */
  ghost function RebuiltChain(t: Table, live: LiveChains, c: Chain): seq<LiveRule> {
    Filter(NotOwned, live.At(c)) + PrintAll(PrintableFront(Ordered(t, c), c), c)
  }

  /** The chains that a loop over `order` gets to: it ends with the first one that stops. */
  ghost function Reached(t: Table, order: seq<Chain>): set<Chain> {
    if order == [] then {}
    else if Stuck(t, order[0]) then {order[0]}
    else {order[0]} + Reached(t, order[1..])
  }

  ghost predicate Stops(t: Table, order: seq<Chain>) {
    exists c :: c in order && Stuck(t, c)
  }

  predicate Lists(order: seq<Chain>, cs: set<Chain>) {
    (forall c :: c in order <==> c in cs) && forall i, j :: 0 <= i < j < |order| ==> order[i] != order[j]
  }

  /** The order in which a loop over a set of chains visits them. */
  function Visited(env: Env, cs: set<Chain>): (order: seq<Chain>)
    ensures Lists(order, cs)
  {
    if Lists(env.order(cs), cs) then env.order(cs)
    else
      InTurnLists(cs);
      InTurn(cs)
  }

  function InTurn(cs: set<Chain>): seq<Chain> {
    Filter((c: Chain) => c in cs, TARGETS)
  }

  lemma InTurnLists(cs: set<Chain>)
    ensures Lists(InTurn(cs), cs)
  {
    hide Filter;
    FilterDistinct((c: Chain) => c in cs, TARGETS);
    forall c
      ensures c in TARGETS
    {
      assert c == TARGETS[0] || c == TARGETS[1] || c == TARGETS[2] || c == TARGETS[3];
    }
  }

  /** The chains named are rebuilt, each as far as it can be printed; the others stay as they are. */
  ghost function Rebuilt(t: Table, live: LiveChains, cs: set<Chain>): (r: LiveChains)
    ensures forall c :: r.At(c) == if c in cs then RebuiltChain(t, live, c) else live.At(c)
  {
    hide RebuiltChain;
    LiveChains(
      if FORWARD in cs then RebuiltChain(t, live, FORWARD) else live.forward,
      if INPUT in cs then RebuiltChain(t, live, INPUT) else live.input,
      if PREROUTING in cs then RebuiltChain(t, live, PREROUTING) else live.prerouting,
      if POSTROUTING in cs then RebuiltChain(t, live, POSTROUTING) else live.postrouting)
  }

  // ---------- positions ----------

  function AllRows(t: Table): set<Row> {
    set id | id in t :: t[id]
  }

  ghost predicate Topmost(rows: set<Row>, m: Row) {
    m in rows && forall r :: r in rows ==> r.position <= m.position
  }

  /** COALESCE(MAX(position), 0). */
  ghost function MaxPosition(rows: set<Row>): real {
    if exists m :: Topmost(rows, m) then
      var m :| Topmost(rows, m);
      m.position
    else 0.0
  }

  lemma {:induction false} TopmostExists(rows: set<Row>) returns (m: Row)
    requires rows != {}
    ensures Topmost(rows, m)
    decreases |rows|
  {
    var x :| x in rows;
    m := x;
    if y :| y in rows && y != x {
      assert y in rows - {x};
      var n := TopmostExists(rows - {x});
      m := if n.position <= x.position then x else n;
      forall r | r in rows
        ensures r.position <= m.position
      {
        assert r == x || r in rows - {x};
      }
    }
  }

  lemma MaxPositionBounds(rows: set<Row>)
    ensures forall r :: r in rows ==> r.position <= MaxPosition(rows)
  {
    if rows != {} {
      var m := TopmostExists(rows);
    }
  }

  /** The rows a dragged row is placed among: those that share a chain with it, enabled or not. */
  function Siblings(t: Table, id: int): set<Row>
    requires id in t
  {
    set j | j in t && j != id && ChainsFor(t[j].rule) * ChainsFor(t[id].rule) != {} :: t[j]
  }

  datatype Side = Before | After

  function IndexOf<T(==)>(s: seq<T>, x: T): (i: nat)
    requires x in s
    ensures i < |s| && s[i] == x && x !in s[..i]
  {
    if s[0] == x then 0 else 1 + IndexOf(s[1..], x)
  }

  /** The rows on either side of the drop point. */
  function LeftOf(s: seq<Row>, k: nat, side: Side): Option<Row>
    requires k < |s|
  {
    if side == After then Some(s[k]) else if k > 0 then Some(s[k - 1]) else None
  }

  function RightOf(s: seq<Row>, k: nat, side: Side): Option<Row>
    requires k < |s|
  {
    if side == Before then Some(s[k]) else if k + 1 < |s| then Some(s[k + 1]) else None
  }

  function Between(left: Option<Row>, right: Option<Row>): real {
    match (left, right)
    case (None, None) => 0.0
    case (None, Some(r)) => r.position - 1.0
    case (Some(l), None) => l.position + 1.0
    case (Some(l), Some(r)) => (l.position + r.position) / 2.0
  }

  predicate CanReorder(t: Table, id: int, target: int) {
    && id in t && target in t && id != target
    && ChainsFor(t[id].rule) != {}
    && ChainsFor(t[id].rule) * ChainsFor(t[target].rule) != {}
  }

  lemma InTable(t: Table, id: int, target: int)
    requires CanReorder(t, id, target)
    ensures id in t && target in t
  {
  }

  /** The position a dragged row is given. */
  ghost function DropPosition(t: Table, id: int, target: int, side: Side): real
    requires CanReorder(t, id, target)
  {
    var s := Sorted(Siblings(t, id));
    if t[target] in s then
      var k := IndexOf(s, t[target]);
      Between(LeftOf(s, k, side), RightOf(s, k, side))
    else 0.0
  }

  // ---------- the rule sets simulated by the self-lockout guard ----------

  ghost function SimulatedAdd(t: Table, r: Rule): set<Row> {
    EnabledInput(t) + {Row(-1, r, "", true, MaxPosition(EnabledInput(t)) + 1.0)}
  }

  function OtherInput(t: Table, id: int): set<Row> {
    set j | j in t && j != id && t[j].enabled && INPUT in ChainsFor(t[j].rule) :: t[j]
  }

  function SimulatedMove(t: Table, id: int, position: real): set<Row>
    requires id in t
  {
    OtherInput(t, id) + if t[id].enabled then {t[id].(position := position)} else {}
  }

  // ---------- operations ----------

  datatype Op =
    | Add(rule: Rule, note: string)
    | Toggle(id: int)
    | Disable(id: int)
    | Delete(id: int)
    | Reorder(id: int, target: int, side: Side)
    | Block(name: string, ip: string)
    | Unblock(name: string)
    | Resync
    | Discover

  /** How a call ends: as asked, refused before anything changed, or by an exception behind its database commit. */
  datatype Result = Completed | Rejected | Broken

  datatype Reply = Reply(fw: Fw, result: Result)

  predicate MalformedAdd(env: Env, r: Rule) {
    || !env.valid(r) || !Complete(r)
    || UnrestrictedDrop(r) || PortWithoutProtocol(r) || ReservedPort(r) || r.Masquerade? || r.ClientBlock?
  }

  ghost function AddRule(env: Env, fw: Fw, who: Option<string>, r: Rule, note: string): Reply {
    if MalformedAdd(env, r) || (r.Input? && LocksOut(env, who, SimulatedAdd(fw.table, r))) then Reply(fw, Rejected)
    else
      var row := Row(fw.nextId, r, note, true, MaxPosition(AllRows(fw.table)) + 1.0);
      Reply(Fw(fw.table[fw.nextId := row], fw.nextId + 1, Apply(fw.live, row)), Completed)
  }

  ghost function EnableRule(env: Env, fw: Fw, who: Option<string>, id: int): Reply
    requires id in fw.table
  {
    var row := fw.table[id].(enabled := true);
    if row.rule.Input? &&
       (UnrestrictedDrop(row.rule) || LocksOut(env, who, OtherInput(fw.table, id) + {row})) then Reply(fw, Rejected)
    else
      var t := fw.table[id := row];
      if row.rule.ClientBlock? then Reply(Fw(t, fw.nextId, Apply(fw.live, row)), Completed)
      else
        Reply(Fw(t, fw.nextId, Rebuilt(t, fw.live, Reached(t, Halves(row.rule)))),
              if Stops(t, Halves(row.rule)) then Broken else Completed)
  }

  /** What becomes of an exception while a row's live rules are taken out: an ordinary command failure is swallowed,
      and in hub mode every failure is one. */
  function AfterUnapply(env: Env, live: LiveChains, row: Row): (r: Result)
    ensures r != Rejected
  {
    if !env.hubMode && UnapplyBreaks(live, row) then Broken else Completed
  }

  ghost function DisableRule(env: Env, fw: Fw, who: Option<string>, id: int): Reply {
    if id !in fw.table || !fw.table[id].enabled then Reply(fw, Completed)
    else if fw.table[id].rule.Input? && LocksOut(env, who, OtherInput(fw.table, id)) then Reply(fw, Rejected)
    else
      var row := fw.table[id];
      Reply(Fw(fw.table[id := row.(enabled := false)], fw.nextId, Unapply(fw.live, row).0),
          AfterUnapply(env, fw.live, row))
  }

  ghost function ToggleRule(env: Env, fw: Fw, who: Option<string>, id: int): Reply {
    if id !in fw.table then Reply(fw, Rejected)
    else if fw.table[id].enabled then DisableRule(env, fw, who, id)
    else EnableRule(env, fw, who, id)
  }

  ghost function DeleteRule(env: Env, fw: Fw, who: Option<string>, id: int): Reply {
    if id !in fw.table then Reply(fw, Completed)
    else if fw.table[id].rule.Input? && LocksOut(env, who, OtherInput(fw.table, id)) then Reply(fw, Rejected)
    else
      var row := fw.table[id];
      if row.enabled then
        Reply(Fw(fw.table - {id}, fw.nextId, Unapply(fw.live, row).0), AfterUnapply(env, fw.live, row))
      else Reply(Fw(fw.table - {id}, fw.nextId, fw.live), Completed)
  }

  ghost function ReorderRule(env: Env, fw: Fw, who: Option<string>, id: int, target: int, side: Side): Reply {
    if !CanReorder(fw.table, id, target) then Reply(fw, Rejected)
    else
      var p := DropPosition(fw.table, id, target, side);
      var row := fw.table[id];
      if row.rule.Input? && LocksOut(env, who, SimulatedMove(fw.table, id, p)) then Reply(fw, Rejected)
      else
        var t := fw.table[id := row.(position := p)];
        var order := Visited(env, ChainsFor(row.rule));
        Reply(Fw(t, fw.nextId, Rebuilt(t, fw.live, Reached(t, order))), if Stops(t, order) then Broken else Completed)
  }

  /** A client name has at most one block row. */
  ghost predicate OneBlockEach(t: Table) {
    forall name, i, j :: IsBlockOf(t, name, i) && IsBlockOf(t, name, j) ==> i == j
  }

  predicate IsBlockOf(t: Table, name: string, id: int) {
    id in t && t[id].rule.ClientBlock? && t[id].rule.clientName == name
  }

  ghost function BlockRow(t: Table, name: string): Option<int> {
    if exists id :: IsBlockOf(t, name, id) then
      var id :| IsBlockOf(t, name, id);
      Some(id)
    else None
  }

  ghost function BlockClient(env: Env, fw: Fw, who: Option<string>, name: string, ip: string): Reply {
    if BlockRow(fw.table, name).Some? then Reply(fw, Completed)
    else if !env.hubMode && who == Some(ip) then Reply(fw, Rejected)
    else
      var row := Row(fw.nextId, ClientBlock(name, ip), "Block " + name, true, MaxPosition(AllRows(fw.table)) + 1.0);
      Reply(Fw(fw.table[fw.nextId := row], fw.nextId + 1, Apply(fw.live, row)), Completed)
  }

  ghost function UnblockClient(fw: Fw, name: string): Reply {
    var b := BlockRow(fw.table, name);
    if b.None? || !IsBlockOf(fw.table, name, b.value) then Reply(fw, Completed)
    else
      var (live, ok) := Unapply(fw.live, fw.table[b.value]);
      if ok then Reply(Fw(fw.table - {b.value}, fw.nextId, live), Completed)
      else Reply(fw.(live := live), Rejected)
  }

  /** Deleting and inserting each block rule again, row by row. */
  function ReapplyBlocks(live: LiveChains, rows: seq<Row>): LiveChains
    decreases |rows|
  {
    if rows == [] then live
    else if rows[0].rule.ClientBlock? then ReapplyBlocks(Apply(Unapply(live, rows[0]).0, rows[0]), rows[1..])
    else ReapplyBlocks(live, rows[1..])
  }

  /** The chains that some enabled row takes part in. */
  function UsedChains(t: Table): set<Chain> {
    set id, c | id in t && t[id].enabled && c in ChainsFor(t[id].rule) :: c
  }

  /** The chains a resync rebuilds: in hub mode a command that cannot be built fails like any other and is swallowed,
      so every used chain has its turn. */
  ghost function ResyncReaches(env: Env, t: Table): set<Chain> {
    if env.hubMode then UsedChains(t) else Reached(t, Visited(env, UsedChains(t)))
  }

  ghost function ResyncAll(env: Env, fw: Fw): Reply {
    var reapplied := ReapplyBlocks(fw.live, Sorted(EnabledRows(fw.table)));
    Reply(fw.(live := Rebuilt(fw.table, reapplied, ResyncReaches(env, fw.table))),
          if !env.hubMode && Stops(fw.table, Visited(env, UsedChains(fw.table))) then Broken else Completed)
  }

  /** The rows one scan of a chain records, judged by the table read when the call began. */
  function ScanRows(t0: Table, c: Chain, fw: Fw): seq<Row> {
    AdoptedRows(t0, c, fw.live.At(c), |fw.live.At(c)|, fw.nextId)
  }

  function Scan(t0: Table, c: Chain, fw: Fw): Fw {
    var rows := ScanRows(t0, c, fw);
    Fw(Inserted(fw.table, rows), fw.nextId + |rows|, fw.live.Put(c, Filter(Staying(t0, c), fw.live.At(c))))
  }

  const TARGETS: seq<Chain> := [FORWARD, INPUT, PREROUTING, POSTROUTING]

  /** State and touched chains after scanning the first n chains. */
  function Scanned(fw: Fw, n: nat): (Fw, set<Chain>)
    requires n <= 4
  {
    if n == 0 then (fw, {})
    else
      var (before, touched) := Scanned(fw, n - 1);
      (Scan(fw.table, TARGETS[n - 1], before), touched + TouchedBy(ScanRows(fw.table, TARGETS[n - 1], before)))
  }

  ghost function DiscoverAll(env: Env, fw: Fw): Reply {
    var (after, touched) := Scanned(fw, 4);
    var order := Visited(env, touched);
    Reply(after.(live := Rebuilt(after.table, after.live, Reached(after.table, order))),
          if Stops(after.table, order) then Broken else Completed)
  }

  ghost function Discovered(env: Env, fw: Fw): Fw {
    DiscoverAll(env, fw).fw
  }

  /** Some chain shows the tag. */
  ghost predicate IsListed(fw: Fw, id: int) {
    exists c, r :: r in fw.live.At(c) && r.comment == Tracked(id)
  }

  /** The enabled rows of an ordered kind whose tag no chain shows: what a discovery reports as gone. */
  ghost function Missing(fw: Fw): set<int> {
    set id | id in fw.table && fw.table[id].enabled && !fw.table[id].rule.ClientBlock?
             && !IsListed(fw, id)
  }

  ghost function Step(env: Env, fw: Fw, who: Option<string>, op: Op): Reply {
    match op
    case Add(r, note) => AddRule(env, fw, who, r, note)
    case Toggle(id) => ToggleRule(env, fw, who, id)
    case Disable(id) => DisableRule(env, fw, who, id)
    case Delete(id) => DeleteRule(env, fw, who, id)
    case Reorder(id, target, side) => ReorderRule(env, fw, who, id, target, side)
    case Block(name, ip) => BlockClient(env, fw, who, name, ip)
    case Unblock(name) => UnblockClient(fw, name)
    case Resync => ResyncAll(env, fw)
    case Discover => DiscoverAll(env, fw)
  }

  /** One call: who asked for it, and what. */
  datatype Call = Call(who: Option<string>, op: Op)

  ghost function Run(env: Env, fw: Fw, calls: seq<Call>): Fw {
    if calls == [] then fw
    else
      var before := Run(env, fw, calls[..|calls| - 1]);
      Step(env, before, calls[|calls| - 1].who, calls[|calls| - 1].op).fw
  }
}
