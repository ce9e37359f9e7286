/** The acknowledged journal stream from an agent to the hub: batches, lost acknowledgements, reconnects and replays. */
module Journal {
  import opened Wrappers
  import opened Sequences

  // ---------- rows and their table ----------

  /** A stored row.  The key is what the table's UNIQUE constraint compares; None stands for a key with a NULL column,
      which the constraint never finds equal to anything. */
  datatype Record = Record(key: Option<string>, data: string)

  predicate Keyed(r: Record) {
    r.key.Some?
  }

  predicate Conflicts(rows: seq<Record>, r: Record) {
    r.key.Some? && exists i :: 0 <= i < |rows| && rows[i].key == r.key
  }

  /** INSERT ... ON CONFLICT DO NOTHING. */
  function Insert(rows: seq<Record>, r: Record): seq<Record> {
    if Conflicts(rows, r) then rows else rows + [r]
  }

  function InsertAll(rows: seq<Record>, rs: seq<Record>): (result: seq<Record>)
    ensures rows <= result
  {
    if rs == [] then rows
    else Insert(InsertAll(rows, rs[..|rs| - 1]), rs[|rs| - 1])
  }

  lemma {:induction false} InsertAllConcat(rows: seq<Record>, a: seq<Record>, b: seq<Record>)
    ensures InsertAll(rows, a + b) == InsertAll(InsertAll(rows, a), b)
  {
    if b == [] {
      assert a + b == a;
    } else {
      assert (a + b)[..|a + b| - 1] == a + b[..|b| - 1];
      InsertAllConcat(rows, a, b[..|b| - 1]);
    }
  }

  ghost predicate HasKeyOf(rows: seq<Record>, r: Record) {
    exists i :: 0 <= i < |rows| && rows[i].key == r.key
  }

  /** After an insertion every inserted key is present. */
  lemma {:induction false} InsertedPresent(rows: seq<Record>, rs: seq<Record>, r: Record)
    requires HasKeyOf(rows, r) || r in rs
    ensures HasKeyOf(InsertAll(rows, rs), r)
  {
    if rs == [] {
    } else {
      var last := |rs| - 1;
      var before := InsertAll(rows, rs[..last]);
      if HasKeyOf(rows, r) || r in rs[..last] {
        InsertedPresent(rows, rs[..last], r);
        var i :| 0 <= i < |before| && before[i].key == r.key;
        assert Insert(before, rs[last])[i] == before[i];
      } else {
        assert r == rs[last];
        if !Conflicts(before, r) {
          assert Insert(before, r)[|before|] == r;
        }
      }
    }
  }

  lemma {:induction false} KnownRowsAddNothing(rows: seq<Record>, rs: seq<Record>)
    requires forall r :: r in rs ==> Keyed(r) && HasKeyOf(rows, r)
    ensures InsertAll(rows, rs) == rows
  {
    if rs != [] {
      KnownRowsAddNothing(rows, rs[..|rs| - 1]);
      assert rs[|rs| - 1] in rs;
    }
  }

  /** Storing a batch again is a no-op exactly when every row of it has a key without NULLs. */
  lemma {:induction false} ReplayIsNoOpIffKeyed(rows: seq<Record>, rs: seq<Record>)
    ensures InsertAll(InsertAll(rows, rs), rs) == InsertAll(rows, rs) <==> forall r :: r in rs ==> Keyed(r)
  {
    var once := InsertAll(rows, rs);
    if forall r :: r in rs ==> Keyed(r) {
      forall r | r in rs
        ensures HasKeyOf(once, r)
      {
        InsertedPresent(rows, rs, r);
      }
      KnownRowsAddNothing(once, rs);
    } else {
      var i :| 0 <= i < |rs| && !Keyed(rs[i]);
      assert rs == rs[..i] + [rs[i]] + rs[i + 1..];
      InsertAllConcat(once, rs[..i] + [rs[i]], rs[i + 1..]);
      InsertAllConcat(once, rs[..i], [rs[i]]);
      assert [rs[i]][..0] == [];
      assert InsertAll(InsertAll(once, rs[..i]), [rs[i]]) == InsertAll(once, rs[..i]) + [rs[i]];
    }
  }

  ghost predicate KeysOnce(rows: seq<Record>) {
    forall i, j :: 0 <= i < j < |rows| && Keyed(rows[i]) ==> rows[i].key != rows[j].key
  }

  lemma {:induction false} InsertAllKeepsKeysOnce(rows: seq<Record>, rs: seq<Record>)
    requires KeysOnce(rows)
    ensures KeysOnce(InsertAll(rows, rs))
  {
    if rs != [] {
      InsertAllKeepsKeysOnce(rows, rs[..|rs| - 1]);
    }
  }

  lemma ConflictsAmongKeyed(rows: seq<Record>, r: Record)
    requires Keyed(r)
    ensures Conflicts(rows, r) == Conflicts(Filter(Keyed, rows), r)
  {
    var f := Filter(Keyed, rows);
    if i :| 0 <= i < |rows| && rows[i].key == r.key {
      assert rows[i] in f;
    }
    if i :| 0 <= i < |f| && f[i].key == r.key {
      assert f[i] in rows;
    }
  }

  lemma KeyedPartInsert(rows: seq<Record>, r: Record)
    ensures Filter(Keyed, Insert(rows, r)) == InsertAll(Filter(Keyed, rows), Filter(Keyed, [r]))
  {
    FilterConcat(Keyed, rows, [r]);
    if Keyed(r) {
      ConflictsAmongKeyed(rows, r);
      assert [r][..0] == [];
      assert InsertAll(Filter(Keyed, rows), [r]) == Insert(Filter(Keyed, rows), r);
    }
  }

  /** The keyed rows of the table behave as if the others were not there. */
  lemma {:induction false} KeyedPartInserts(rows: seq<Record>, rs: seq<Record>)
    ensures Filter(Keyed, InsertAll(rows, rs)) == InsertAll(Filter(Keyed, rows), Filter(Keyed, rs))
  {
    if rs != [] {
      hide Insert, Filter;
      var last := |rs| - 1;
      var r := rs[last];
      KeyedPartInserts(rows, rs[..last]);
      KeyedPartInsert(InsertAll(rows, rs[..last]), r);
      assert rs == rs[..last] + [r];
      FilterConcat(Keyed, rs[..last], [r]);
      InsertAllConcat(Filter(Keyed, rows), Filter(Keyed, rs[..last]), Filter(Keyed, [r]));
    }
  }

  // ---------- the journal ----------

  /** One journal entry: does it pass the agent's checks and filter, does it pass the hub's own validation, and what row
      does the hub make of it (none when its timestamp cannot be converted or no pattern matches). */
  datatype Entry = Entry(usable: bool, acceptable: bool, row: Option<Record>)

  /** An event of a batch: the entry and its cursor, the number of entries up to and including it. */
  datatype Item = Item(cursor: nat, entry: Entry)

  /** What the agent collects from entries a..z. */
  function Items(j: seq<Entry>, a: nat, z: nat): seq<Item>
    requires a <= z <= |j|
  {
    if a == z then []
    else Items(j, a, z - 1) + if j[z - 1].usable then [Item(z, j[z - 1])] else []
  }

  function RowOf(e: Entry): seq<Record> {
    if e.usable && e.row.Some? then [e.row.value] else []
  }

  /** The rows of entries a..z. */
  function RowsOf(j: seq<Entry>, a: nat, z: nat): seq<Record>
    requires a <= z <= |j|
  {
    if a == z then [] else RowsOf(j, a, z - 1) + RowOf(j[z - 1])
  }

  function ItemRows(items: seq<Item>): seq<Record> {
    if items == [] then [] else ItemRows(items[..|items| - 1]) + RowOf(items[|items| - 1].entry)
  }

  /** The rows of entries a..z that the UNIQUE constraint covers. */
  function KeyedRows(j: seq<Entry>, a: nat, z: nat): seq<Record>
    requires a <= z <= |j|
  {
    Filter(Keyed, RowsOf(j, a, z))
  }

  /** What the covered part of the table holds when exactly the first n entries have been stored. */
  function Stored(j: seq<Entry>, n: nat): seq<Record>
    requires n <= |j|
  {
    InsertAll([], KeyedRows(j, 0, n))
  }

  function Last(items: seq<Item>): nat
    requires items != []
  {
    items[|items| - 1].cursor
  }

  lemma {:induction false} RowsSplit(j: seq<Entry>, a: nat, m: nat, z: nat)
    requires a <= m <= z <= |j|
    ensures RowsOf(j, a, z) == RowsOf(j, a, m) + RowsOf(j, m, z)
  {
    if m < z {
      RowsSplit(j, a, m, z - 1);
    }
  }

  lemma KeyedSplit(j: seq<Entry>, a: nat, m: nat, z: nat)
    requires a <= m <= z <= |j|
    ensures KeyedRows(j, a, z) == KeyedRows(j, a, m) + KeyedRows(j, m, z)
  {
    RowsSplit(j, a, m, z);
    FilterConcat(Keyed, RowsOf(j, a, m), RowsOf(j, m, z));
  }

  lemma {:induction false} ItemsRows(j: seq<Entry>, a: nat, z: nat)
    requires a <= z <= |j|
    ensures ItemRows(Items(j, a, z)) == RowsOf(j, a, z)
  {
    if a < z {
      hide Items, RowsOf, RowOf, ItemRows;
      ItemsRows(j, a, z - 1);
      OneMoreEntry(j, a, z);
      if j[z - 1].usable {
        ItemRowsNext(Items(j, a, z - 1), Item(z, j[z - 1]));
      }
    }
  }

  lemma OneMoreEntry(j: seq<Entry>, a: nat, z: nat)
    requires a < z <= |j|
    ensures Items(j, a, z) == if j[z - 1].usable then Items(j, a, z - 1) + [Item(z, j[z - 1])] else Items(j, a, z - 1)
    ensures RowsOf(j, a, z) == RowsOf(j, a, z - 1) + RowOf(j[z - 1])
    ensures !j[z - 1].usable ==> RowsOf(j, a, z) == RowsOf(j, a, z - 1)
  {
    var before, rows := Items(j, a, z - 1), RowsOf(j, a, z - 1);
    assert before + [] == before && rows + [] == rows;
  }

  lemma ItemRowsNext(items: seq<Item>, item: Item)
    ensures ItemRows(items + [item]) == ItemRows(items) + RowOf(item.entry)
  {
    hide RowOf;
    assert (items + [item])[..|items|] == items;
  }


  /** A batch reaches exactly to its last cursor: entries skipped behind it carry nothing. */
  lemma {:induction false} ItemsEnd(j: seq<Entry>, a: nat, z: nat)
    requires a <= z <= |j|
    ensures var items := Items(j, a, z);
            items != [] ==> a < Last(items) <= z && Items(j, a, Last(items)) == items
  {
    if a < z && !j[z - 1].usable {
      ItemsEnd(j, a, z - 1);
    }
  }

  lemma {:induction false} NothingBehindLast(j: seq<Entry>, a: nat, z: nat)
    requires a <= z <= |j| && Items(j, a, z) != []
    ensures Last(Items(j, a, z)) <= z && Items(j, Last(Items(j, a, z)), z) == []
  {
    if a < z {
      if j[z - 1].usable {
        assert Items(j, z, z) == [];
      } else {
        NothingBehindLast(j, a, z - 1);
      }
    }
  }

  /** A longer journal reads the same up to any earlier position. */
  lemma {:induction false} JournalGrows(j: seq<Entry>, j': seq<Entry>, a: nat, z: nat)
    requires j <= j' && a <= z <= |j|
    ensures Items(j', a, z) == Items(j, a, z) && RowsOf(j', a, z) == RowsOf(j, a, z)
  {
    if a < z {
      JournalGrows(j, j', a, z - 1);
    }
  }

  /** Committing a batch that starts inside the stored prefix stores exactly a longer (or the same) prefix. */
  lemma CommitExtendsPrefix(j: seq<Entry>, high: nat, a: nat, z: nat)
    requires a <= high <= |j| && a <= z <= |j|
    ensures InsertAll(Stored(j, high), KeyedRows(j, a, z)) == Stored(j, if z > high then z else high)
  {
    hide RowsOf;
    var m := if z > high then high else z;
    KeyedSplit(j, a, m, z);
    forall r | r in KeyedRows(j, a, m)
      ensures Keyed(r) && HasKeyOf(Stored(j, high), r)
    {
      KeyedSplit(j, 0, a, m);
      KeyedSplit(j, 0, m, high);
      assert r in KeyedRows(j, 0, high);
      InsertedPresent([], KeyedRows(j, 0, high), r);
    }
    KnownRowsAddNothing(Stored(j, high), KeyedRows(j, a, m));
    InsertAllConcat(Stored(j, high), KeyedRows(j, a, m), KeyedRows(j, m, z));
    if z > high {
      KeyedSplit(j, 0, high, z);
      InsertAllConcat([], KeyedRows(j, 0, high), KeyedRows(j, high, z));
    } else {
      assert KeyedRows(j, m, z) == [];
    }
  }

  // ---------- read off the entries ----------

  predicate Yields(e: Entry, r: Record) {
    e.usable && e.row == Some(r)
  }

  lemma RowOfIs(e: Entry, r: Record)
    ensures r in RowOf(e) <==> Yields(e, r)
  {
  }

  lemma {:induction false} RowsOfAre(j: seq<Entry>, a: nat, z: nat, r: Record)
    requires a <= z <= |j|
    ensures r in RowsOf(j, a, z) <==> exists i :: a <= i < z && Yields(j[i], r)
  {
    if a < z {
      hide RowsOf;
      RowsOfAre(j, a, z - 1, r);
      OneMoreEntry(j, a, z);
      RowOfIs(j[z - 1], r);
    }
  }

  lemma {:induction false} ItemRowsAre(items: seq<Item>, r: Record)
    ensures r in ItemRows(items) <==> exists i :: 0 <= i < |items| && Yields(items[i].entry, r)
  {
    if items != [] {
      var front := items[..|items| - 1];
      ItemRowsAre(front, r);
      assert forall i :: 0 <= i < |front| ==> front[i] == items[i];
    }
  }

  lemma {:induction false} InsertedMembers(rows: seq<Record>, rs: seq<Record>)
    ensures forall r :: r in InsertAll(rows, rs) ==> r in rows || r in rs
    ensures forall r :: r in rows || (r in rs && !Keyed(r)) ==> r in InsertAll(rows, rs)
  {
    if rs != [] {
      InsertedMembers(rows, rs[..|rs| - 1]);
    }
  }

  /** No earlier usable entry makes a row with this key. */
  ghost predicate FirstOfKey(j: seq<Entry>, i: nat, r: Record)
    requires i <= |j|
  {
    forall k, x :: 0 <= k < i && Yields(j[k], x) ==> x.key != r.key
  }

  /** The first row of a key is the one that is stored. */
  lemma {:induction false} FirstIsStored(j: seq<Entry>, z: nat, i: nat, r: Record)
    requires i < z <= |j| && Yields(j[i], r) && Keyed(r) && FirstOfKey(j, i, r)
    ensures r in Stored(j, z)
  {
    hide Stored, InsertAll, Filter;
    StoredNext(j, z - 1);
    var rs := Filter(Keyed, RowOf(j[z - 1]));
    if i < z - 1 {
      FirstIsStored(j, z - 1, i, r);
      InsertedMembers(Stored(j, z - 1), rs);
    } else {
      FilterAll(Keyed, [r]);
      NoConflict(j, i, r);
      InsertOne(Stored(j, i), r);
    }
  }

  lemma StoredNext(j: seq<Entry>, n: nat)
    requires n < |j|
    ensures Stored(j, n + 1) == InsertAll(Stored(j, n), Filter(Keyed, RowOf(j[n])))
  {
    hide RowOf, InsertAll;
    FilterConcat(Keyed, RowsOf(j, 0, n), RowOf(j[n]));
    InsertAllConcat([], KeyedRows(j, 0, n), Filter(Keyed, RowOf(j[n])));
  }

  lemma NoConflict(j: seq<Entry>, i: nat, r: Record)
    requires i <= |j| && FirstOfKey(j, i, r)
    ensures !Conflicts(Stored(j, i), r)
  {
    hide RowsOf;
    InsertedMembers([], KeyedRows(j, 0, i));
    forall k | 0 <= k < |Stored(j, i)|
      ensures Stored(j, i)[k].key != r.key
    {
      var x := Stored(j, i)[k];
      assert x in Stored(j, i);
      RowsOfAre(j, 0, i, x);
    }
  }

  /** What storing a batch does to the table, entry by entry: what was there stays, every row of a usable entry is
      there afterwards, by its key if it has one and as it is if it is the first of its key, and nothing else is new. */
  ghost predicate BatchStored(before: seq<Record>, items: seq<Item>, after: seq<Record>) {
    && before <= after
    && (forall i, r :: 0 <= i < |items| && items[i].entry.usable && items[i].entry.row == Some(r) ==>
          if r.key.Some? then exists x :: x in after && x.key == r.key else r in after)
    && (forall x :: x in after ==>
          x in before || exists i :: 0 <= i < |items| && items[i].entry.usable && items[i].entry.row == Some(x))
    && (forall i, r :: 0 <= i < |items| && Yields(items[i].entry, r) && FirstInBatch(before, items, i, r) ==>
          r in after)
  }

  /** Neither the table nor an earlier event of the batch has a row with this key. */
  ghost predicate FirstInBatch(before: seq<Record>, items: seq<Item>, i: nat, r: Record)
    requires i <= |items|
  {
    && (forall x :: x in before ==> x.key != r.key)
    && (forall k, x :: 0 <= k < i && Yields(items[k].entry, x) ==> x.key != r.key)
  }

  /** Such a row is stored as it is. */
  lemma {:induction false} FirstIsInserted(rows: seq<Record>, items: seq<Item>, i: nat, r: Record)
    requires i < |items| && Yields(items[i].entry, r) && FirstInBatch(rows, items, i, r)
    ensures r in InsertAll(rows, ItemRows(items))
  {
    hide InsertAll;
    var last := |items| - 1;
    var front := items[..last];
    InsertAllConcat(rows, ItemRows(front), RowOf(items[last].entry));
    if i < last {
      FirstIsInserted(rows, front, i, r);
      InsertedMembers(InsertAll(rows, ItemRows(front)), RowOf(items[last].entry));
    } else {
      FreshKey(rows, front, r);
      InsertOne(InsertAll(rows, ItemRows(front)), r);
    }
  }

  lemma FreshKey(rows: seq<Record>, items: seq<Item>, r: Record)
    requires FirstInBatch(rows, items, |items|, r)
    ensures !Conflicts(InsertAll(rows, ItemRows(items)), r)
  {
    hide InsertAll, ItemRows;
    var after := InsertAll(rows, ItemRows(items));
    InsertedMembers(rows, ItemRows(items));
    forall k | 0 <= k < |after|
      ensures after[k].key != r.key
    {
      assert after[k] in after;
      ItemRowsAre(items, after[k]);
    }
  }

  lemma InsertOne(rows: seq<Record>, r: Record)
    ensures InsertAll(rows, [r]) == Insert(rows, r)
  {
    assert [r][..0] == [];
  }

  lemma InsertStoresBatch(rows: seq<Record>, items: seq<Item>)
    ensures BatchStored(rows, items, InsertAll(rows, ItemRows(items)))
  {
    hide InsertAll, ItemRows;
    var rs := ItemRows(items);
    var after := InsertAll(rows, rs);
    InsertedMembers(rows, rs);
    forall i, r | 0 <= i < |items| && items[i].entry.usable && items[i].entry.row == Some(r)
      ensures if r.key.Some? then exists x :: x in after && x.key == r.key else r in after
    {
      assert Yields(items[i].entry, r);
      ItemRowsAre(items, r);
      InsertedPresent(rows, rs, r);
      var n :| 0 <= n < |after| && after[n].key == r.key;
      assert after[n] in after;
    }
    forall i, r | 0 <= i < |items| && Yields(items[i].entry, r) && FirstInBatch(rows, items, i, r)
      ensures r in after
    {
      FirstIsInserted(rows, items, i, r);
    }
    forall x | x in after && x !in rows
      ensures exists i :: 0 <= i < |items| && items[i].entry.usable && items[i].entry.row == Some(x)
    {
      ItemRowsAre(items, x);
      var i :| 0 <= i < |items| && Yields(items[i].entry, x);
    }
  }

  // ---------- the hub's side of one batch ----------

  predicate Acceptable(items: seq<Item>) {
    1 <= |items| <= 50 && forall i :: 0 <= i < |items| ==> items[i].entry.acceptable
  }

  /** The two tables one agent's stream writes to. */
  class Store {
    var rows: seq<Record>
    var cursor: nat

    constructor (rows: seq<Record>, cursor: nat)
      ensures this.rows == rows && this.cursor == cursor
    {
      this.rows, this.cursor := rows, cursor;
    }

    /** handle_agent for one batch: convert, then store rows and cursor together; a batch with an invalid event, none or
        more than fifty changes nothing. */
    method HandleBatch(items: seq<Item>) returns (ok: bool)
      modifies this
      ensures ok == (1 <= |items| <= 50 && forall i :: 0 <= i < |items| ==> items[i].entry.acceptable)
      ensures ok ==> rows == InsertAll(old(rows), ItemRows(items)) && cursor == items[|items| - 1].cursor
      ensures ok ==> BatchStored(old(rows), items, rows)
      ensures !ok ==> rows == old(rows) && cursor == old(cursor)
    {
      hide InsertAll, Insert, ItemRows;
      if |items| < 1 || |items| > 50 {
        return false;
      }
      var converted := BatchRows(items);
      if converted.Refused? {
        return false;
      }
      var newRows, last := converted.value.0, converted.value.1;
      InsertNone(rows, newRows);
      for i := 0 to |newRows|
        invariant rows == InsertAll(old(rows), newRows[..i]) && cursor == old(cursor)
      {
        InsertNext(old(rows), newRows, i);
        rows := Insert(rows, newRows[i]);
      }
      assert newRows[..|newRows|] == newRows;
      cursor := last;
      InsertStoresBatch(old(rows), items);
      return true;
    }
  }

  lemma InsertNone(rows: seq<Record>, rs: seq<Record>)
    ensures InsertAll(rows, rs[..0]) == rows
  {
  }

  lemma InsertNext(rows: seq<Record>, rs: seq<Record>, i: nat)
    requires i < |rs|
    ensures InsertAll(rows, rs[..i + 1]) == Insert(InsertAll(rows, rs[..i]), rs[i])
  {
    hide Insert;
    assert rs[..i + 1][..i] == rs[..i];
  }

  /** _vpn_event_batch_rows: append to `rows` and track `last_cursor`, event by event. */
  method BatchRows(items: seq<Item>) returns (result: Outcome<(seq<Record>, nat)>)
    ensures result.Done? <==> items != [] && forall i :: 0 <= i < |items| ==> items[i].entry.acceptable
    ensures result.Done? ==> result.value == (ItemRows(items), items[|items| - 1].cursor)
    ensures result.Done? ==>
              forall r :: r in result.value.0
                <==> exists i :: 0 <= i < |items| && items[i].entry.usable && items[i].entry.row == Some(r)
  {
    var rows, last := [], None;
    for i := 0 to |items|
      invariant rows == ItemRows(items[..i])
      invariant last == if i == 0 then None else Some(items[i - 1].cursor)
      invariant forall k :: 0 <= k < i ==> items[k].entry.acceptable
    {
      if !items[i].entry.acceptable {
        return Refused;
      }
      assert items[..i + 1][..i] == items[..i];
      last := Some(items[i].cursor);
      rows := rows + RowOf(items[i].entry);
    }
    assert items[..|items|] == items;
    if last.None? {
      return Refused;
    }
    forall r
      ensures r in rows <==> exists i :: 0 <= i < |items| && items[i].entry.usable && items[i].entry.row == Some(r)
    {
      ItemRowsAre(items, r);
      if i :| 0 <= i < |items| && items[i].entry.usable && items[i].entry.row == Some(r) {
        assert Yields(items[i].entry, r);
      }
    }
    return Done((rows, last.value));
  }
}
