/** What a call can do to the rule table: put one row, drop one row, or nothing; discovery alone puts several. */
module Edits {
  import opened Wrappers
  import opened Rules
  import opened Lockout
  import opened Firewall

  datatype Edit = Same | Put(row: Row) | Drop(id: int)

  function Edited(t: Table, e: Edit): Table {
    match e
    case Same => t
    case Put(row) => t[row.id := row]
    case Drop(id) => t - {id}
  }

  /** The tables differ in one row at most. */
  ghost predicate OthersSame(t: Table, t': Table, id: int) {
    forall j :: j != id ==> (j in t <==> j in t') && (j in t ==> t'[j] == t[j])
  }

  /** A new row takes the next id and a position behind all others. */
  ghost predicate IsNew(fw: Fw, row: Row) {
    row.id == fw.nextId && row.enabled && row.position == MaxPosition(AllRows(fw.table)) + 1.0
  }

  /** The edit that answers a call: none if it was refused or there was nothing to do, and otherwise exactly this. */
  ghost predicate IsEdit(fw: Fw, op: Op, result: Result, e: Edit) {
    match op
    case Add(r, note) =>
      if result == Rejected then e == Same
      else e.Put? && IsNew(fw, e.row) && e.row.rule == r && e.row.note == note && !r.ClientBlock?
    case Toggle(id) =>
      if result == Rejected then e == Same
      else id in fw.table && e == Put(fw.table[id].(enabled := !fw.table[id].enabled))
    case Disable(id) =>
      if result == Rejected || id !in fw.table || !fw.table[id].enabled then e == Same
      else e == Put(fw.table[id].(enabled := false))
    case Delete(id) => if result == Rejected || id !in fw.table then e == Same else e == Drop(id)
    case Reorder(id, target, side) =>
      if result == Rejected then e == Same
      else CanReorder(fw.table, id, target)
           && e == Put(fw.table[id].(position := DropPosition(fw.table, id, target, side)))
    case Block(name, ip) =>
      if result == Rejected || HasBlock(fw.table, name) then e == Same
      else e.Put? && IsNew(fw, e.row) && e.row.rule == ClientBlock(name, ip)
    case Unblock(name) =>
      if result == Rejected || !HasBlock(fw.table, name) then e == Same
      else e.Drop? && IsBlockOf(fw.table, name, e.id)
    case Resync => e == Same
    case Discover => false
  }

  ghost predicate HasBlock(t: Table, name: string) {
    exists id :: IsBlockOf(t, name, id)
  }

  lemma EditOfAdd(env: Env, fw: Fw, who: Option<string>, r: Rule, note: string) returns (e: Edit)
    ensures var reply := AddRule(env, fw, who, r, note);
            IsEdit(fw, Op.Add(r, note), reply.result, e) && reply.fw.table == Edited(fw.table, e)
  {
    hide Apply, LocksOut, MaxPosition, UnrestrictedDrop;
    var after := AddRule(env, fw, who, r, note);
    e := if after.result == Rejected then Same else Put(after.fw.table[fw.nextId]);
  }

  lemma EditOfDisable(env: Env, fw: Fw, who: Option<string>, id: int) returns (e: Edit)
    requires Keyed(fw.table)
    ensures var reply := DisableRule(env, fw, who, id);
            && IsEdit(fw, Op.Disable(id), reply.result, e) && reply.fw.table == Edited(fw.table, e)
            && (id in fw.table && fw.table[id].enabled ==> IsEdit(fw, Op.Toggle(id), reply.result, e))
  {
    hide Unapply, LocksOut;
    var result := DisableRule(env, fw, who, id).result;
    e := if result == Rejected || id !in fw.table || !fw.table[id].enabled then Same
         else Put(fw.table[id].(enabled := false));
  }

  lemma EditOfEnable(env: Env, fw: Fw, who: Option<string>, id: int) returns (e: Edit)
    requires Keyed(fw.table) && id in fw.table && !fw.table[id].enabled
    ensures var reply := EnableRule(env, fw, who, id);
            IsEdit(fw, Op.Toggle(id), reply.result, e) && reply.fw.table == Edited(fw.table, e)
  {
    hide Apply, Rebuilt, Reached, Stops, LocksOut, UnrestrictedDrop;
    e := if EnableRule(env, fw, who, id).result == Rejected then Same else Put(fw.table[id].(enabled := true));
  }

  lemma EditOfDelete(env: Env, fw: Fw, who: Option<string>, id: int) returns (e: Edit)
    ensures var reply := DeleteRule(env, fw, who, id);
            IsEdit(fw, Op.Delete(id), reply.result, e) && reply.fw.table == Edited(fw.table, e)
  {
    hide Unapply, LocksOut;
    e := if DeleteRule(env, fw, who, id).result == Rejected || id !in fw.table then Same else Drop(id);
  }

  lemma EditOfReorder(env: Env, fw: Fw, who: Option<string>, id: int, target: int, side: Side) returns (e: Edit)
    requires Keyed(fw.table)
    ensures var reply := ReorderRule(env, fw, who, id, target, side);
            IsEdit(fw, Op.Reorder(id, target, side), reply.result, e) && reply.fw.table == Edited(fw.table, e)
  {
    hide Rebuilt, Reached, Stops, LocksOut, DropPosition, SimulatedMove, Visited;
    e := if ReorderRule(env, fw, who, id, target, side).result == Rejected then Same
         else Put(fw.table[id].(position := DropPosition(fw.table, id, target, side)));
  }

  lemma EditOfBlock(env: Env, fw: Fw, who: Option<string>, name: string, ip: string) returns (e: Edit)
    ensures var reply := BlockClient(env, fw, who, name, ip);
            IsEdit(fw, Op.Block(name, ip), reply.result, e) && reply.fw.table == Edited(fw.table, e)
  {
    hide Apply, MaxPosition;
    var after := BlockClient(env, fw, who, name, ip);
    e := if after.result == Rejected || HasBlock(fw.table, name) then Same else Put(after.fw.table[fw.nextId]);
  }

  lemma EditOfUnblock(env: Env, fw: Fw, name: string) returns (e: Edit)
    ensures var reply := UnblockClient(fw, name);
            IsEdit(fw, Op.Unblock(name), reply.result, e) && reply.fw.table == Edited(fw.table, e)
  {
    hide Unapply;
    e := if UnblockClient(fw, name).result == Rejected || !HasBlock(fw.table, name) then Same
         else Drop(BlockRow(fw.table, name).value);
  }

  /** Every call but discovery comes to exactly one such edit. */
  lemma EditOf(env: Env, fw: Fw, who: Option<string>, op: Op) returns (e: Edit)
    requires Keyed(fw.table) && !op.Discover?
    ensures var reply := Step(env, fw, who, op);
            IsEdit(fw, op, reply.result, e) && reply.fw.table == Edited(fw.table, e)
  {
    hide AddRule, DisableRule, EnableRule, DeleteRule, ReorderRule, BlockClient, UnblockClient, DiscoverAll, ResyncAll;
    match op {
      case Add(r, note) => e := EditOfAdd(env, fw, who, r, note);
      case Toggle(id) =>
        if id in fw.table && fw.table[id].enabled { e := EditOfDisable(env, fw, who, id); }
        else if id in fw.table { e := EditOfEnable(env, fw, who, id); }
        else { e := Same; }
      case Disable(id) => e := EditOfDisable(env, fw, who, id);
      case Delete(id) => e := EditOfDelete(env, fw, who, id);
      case Reorder(id, target, side) => e := EditOfReorder(env, fw, who, id, target, side);
      case Block(name, ip) => e := EditOfBlock(env, fw, who, name, ip);
      case Unblock(name) => e := EditOfUnblock(env, fw, name);
      case Resync =>
        ResyncEdits(env, fw);
        e := Same;
    }
  }

  lemma ResyncEdits(env: Env, fw: Fw)
    ensures ResyncAll(env, fw).fw.table == fw.table && ResyncAll(env, fw).result != Rejected
  {
    hide Rebuilt, ReapplyBlocks, Sorted, ResyncReaches, Stops, Visited;
  }

  /** The id sequence stays ahead. */
  lemma NextIdAfter(env: Env, fw: Fw, who: Option<string>, op: Op)
    requires WellKept(fw) && !op.Discover?
    ensures WellKept(Step(env, fw, who, op).fw) && Step(env, fw, who, op).fw.nextId >= fw.nextId
  {
    hide Apply, Unapply, Rebuilt, ReapplyBlocks, DropPosition, LocksOut, MaxPosition, UnrestrictedDrop, SimulatedMove,
      Sorted, Reached, Stops, AfterUnapply, ResyncReaches, Visited, BlockRow, MalformedAdd;
  }
}
