/** What is claimed of one chain while workers are on their way, and how a claim moves with table and chain. */
module Claims {
  import opened Rules
  import opened Mirror

  // ---------- what is claimed of one chain ----------

  /** Before the adds still on their way, everything is in place: `v` lists the other rows in order, and the pending
      ones come behind them in the order of their commits. */
  ghost predicate InPlace(t: Table, v: seq<LiveRule>, pending: set<int>, c: Chain) {
    && v == PrintAll(Ordered(t - pending, c), c)
    && (forall p, x :: p in pending && p in t && x in Ordered(t - pending, c) ==> Less(x, t[p]))
    && (forall p, q :: p in pending && q in pending && p in t && q in t && p < q ==> Less(t[p], t[q]))
  }

  /** The rule is tagged for a row of the chain. */
  ghost predicate Names(t: Table, c: Chain, r: LiveRule) {
    r.comment.Tracked? && r.comment.id in t && c in ChainsFor(t[r.comment.id].rule)
  }

  ghost predicate OutOfOrder(t: Table, c: Chain, x: LiveRule, y: LiveRule) {
    Names(t, c, x) && Names(t, c, y) && !Less(t[x.comment.id], t[y.comment.id])
  }

  ghost predicate Inverted(t: Table, c: Chain, v: seq<LiveRule>) {
    exists i, j :: 0 <= i < j < |v| && OutOfOrder(t, c, v[i], v[j])
  }

  /** A row still to be appended is there already. */
  ghost predicate Doubled(t: Table, v: seq<LiveRule>, pending: set<int>) {
    exists i :: 0 <= i < |v| && v[i].comment.Tracked? && v[i].comment.id in pending && v[i].comment.id in t
  }

  ghost predicate ComesLate(t: Table, c: Chain, x: LiveRule, p: int) {
    Names(t, c, x) && p in t && c in ChainsFor(t[p].rule) && !Less(t[x.comment.id], t[p])
  }

  /** A row still to be appended belongs in front of one that is shown. */
  ghost predicate Belated(t: Table, c: Chain, shown: seq<LiveRule>, pending: set<int>) {
    exists i, p :: 0 <= i < |shown| && p in pending && ComesLate(t, c, shown[i], p)
  }

  /** Two tagged rules are, or will be, shown in the wrong order or twice. */
  ghost predicate Wrong(t: Table, shown: seq<LiveRule>, rest: seq<LiveRule>, pending: set<int>, c: Chain) {
    Inverted(t, c, shown + rest) || Doubled(t, shown + rest, pending) || Belated(t, c, shown, pending)
  }

  ghost predicate Claim(
      t: Table, shown: seq<LiveRule>, rest: seq<LiveRule>, pending: set<int>, crossed: bool, c: Chain)
  {
    if crossed then Wrong(t, shown, rest, pending, c) else InPlace(t, shown + rest, pending, c)
  }

  ghost predicate PendingOk(t: Table, pending: set<int>, c: Chain) {
    forall p :: p in pending ==> p in t && t[p].enabled && c in ChainsFor(t[p].rule)
  }

  // ---------- how a claim moves with the tables ----------

  lemma WrongGrows(t: Table, t': Table, shown: seq<LiveRule>, rest: seq<LiveRule>, p: set<int>, p': set<int>, c: Chain)
    requires Wrong(t, shown, rest, p, c) && p <= p'
    requires forall id :: id in t ==> id in t'
    requires forall id :: id in t && c in ChainsFor(t[id].rule) ==> t'[id] == t[id]
    requires forall id :: id in p && id in t ==> t'[id] == t[id]
    ensures Wrong(t', shown, rest, p', c)
  {
    hide Less;
    var v := shown + rest;
    if Inverted(t, c, v) {
      var i, j :| 0 <= i < j < |v| && OutOfOrder(t, c, v[i], v[j]);
      assert OutOfOrder(t', c, v[i], v[j]);
    } else if Doubled(t, v, p) {
      var i :| 0 <= i < |v| && v[i].comment.Tracked? && v[i].comment.id in p && v[i].comment.id in t;
      assert v[i].comment.id in p';
    } else {
      var i, q :| 0 <= i < |shown| && q in p && ComesLate(t, c, shown[i], q);
      assert ComesLate(t', c, shown[i], q);
    }
  }

  /** A new row on top, not yet appended. */
  lemma CommitTop(
      t: Table, shown: seq<LiveRule>, rest: seq<LiveRule>, p: set<int>, b: bool, c: Chain, row: Row)
    requires Claim(t, shown, rest, p, b, c) && Keyed(t) && row.id !in t && PendingOk(t, p, c)
    requires forall id :: id in t ==> t[id].position < row.position && id < row.id
    ensures Claim(t[row.id := row], shown, rest, if c in ChainsFor(row.rule) then p + {row.id} else p, b, c)
  {
    hide ChainsFor, InPlace, Wrong;
    var t' := t[row.id := row];
    var p' := if c in ChainsFor(row.rule) then p + {row.id} else p;
    if b {
      WrongGrows(t, t', shown, rest, p, p', c);
    } else if c in ChainsFor(row.rule) {
      PlaceOnTop(t, shown + rest, p, c, row);
    } else {
      PlaceElsewhere(t, shown + rest, p, c, row);
    }
  }

  lemma PlaceOnTop(t: Table, v: seq<LiveRule>, p: set<int>, c: Chain, row: Row)
    requires InPlace(t, v, p, c) && Keyed(t) && row.id !in t && PendingOk(t, p, c) && c in ChainsFor(row.rule)
    requires forall id :: id in t ==> t[id].position < row.position && id < row.id
    ensures InPlace(t[row.id := row], v, p + {row.id}, c)
  {
    hide PrintAll, Ordered, ChainsFor;
    assert t[row.id := row] - (p + {row.id}) == t - p;
    OrderedFacts(t - p, c);
  }

  lemma PlaceElsewhere(t: Table, v: seq<LiveRule>, p: set<int>, c: Chain, row: Row)
    requires InPlace(t, v, p, c) && Keyed(t) && row.id !in t && PendingOk(t, p, c) && c !in ChainsFor(row.rule)
    ensures InPlace(t[row.id := row], v, p, c)
  {
    hide PrintAll, Ordered, ChainsFor, Less;
    assert row.id !in p;
    SameOrderElsewhere(t, p, row, c);
  }

  /** A row changed or inserted that the chain does not show. */
  lemma SameOrderElsewhere(t: Table, p: set<int>, row: Row, c: Chain)
    requires Keyed(t) && c !in ChainsFor(row.rule) && (row.id in t ==> c !in ChainsFor(t[row.id].rule))
    ensures Ordered(t[row.id := row] - p, c) == Ordered(t - p, c)
  {
    var a, b := t - p, t[row.id := row] - p;
    assert a - {row.id} == b - {row.id};
    OrderedElsewhere(a, b, row.id, c);
  }

  lemma ChangeElsewhere(
      t: Table, shown: seq<LiveRule>, rest: seq<LiveRule>, p: set<int>, b: bool, c: Chain, row: Row)
    requires Claim(t, shown, rest, p, b, c) && Keyed(t) && PendingOk(t, p, c)
    requires c !in ChainsFor(row.rule) && (row.id in t ==> c !in ChainsFor(t[row.id].rule))
    ensures Claim(t[row.id := row], shown, rest, p, b, c)
  {
    var t' := t[row.id := row];
    assert row.id !in p;
    if b {
      WrongGrows(t, t', shown, rest, p, p, c);
    } else {
      SameOrderElsewhere(t, p, row, c);
      hide Ordered, PrintAll, Less;
    }
  }

  // ---------- how a claim moves with the chain ----------

  /** Inserting a rule between what is shown and what is to come keeps every earlier wrong. */
  lemma WrongStays(
      t: Table, shown: seq<LiveRule>, rest: seq<LiveRule>, p: set<int>, c: Chain, r: LiveRule, id: int)
    requires Wrong(t, shown, rest, p, c) && id in p && r.comment == Tracked(id) && id in t && c in ChainsFor(t[id].rule)
    ensures Wrong(t, shown + [r], rest, p - {id}, c)
  {
    hide Less, Names;
    var v := shown + rest;
    if Inverted(t, c, v) {
      var i, j :| 0 <= i < j < |v| && OutOfOrder(t, c, v[i], v[j]);
      ShiftedBy(shown, r, rest, i);
      ShiftedBy(shown, r, rest, j);
    } else if Doubled(t, v, p) {
      DoubledStays(t, shown, rest, p, c, r, id);
    } else {
      BelatedStays(t, shown, rest, p, c, r, id);
    }
  }

  function Shift(n: nat, i: nat): nat {
    if i < n then i else i + 1
  }

  lemma ShiftedBy(shown: seq<LiveRule>, r: LiveRule, rest: seq<LiveRule>, i: nat)
    requires i < |shown + rest|
    ensures (shown + [r] + rest)[Shift(|shown|, i)] == (shown + rest)[i]
  {
  }

  lemma DoubledStays(
      t: Table, shown: seq<LiveRule>, rest: seq<LiveRule>, p: set<int>, c: Chain, r: LiveRule, id: int)
    requires Doubled(t, shown + rest, p)
    requires id in p && r.comment == Tracked(id) && id in t && c in ChainsFor(t[id].rule)
    ensures Inverted(t, c, shown + [r] + rest) || Doubled(t, shown + [r] + rest, p - {id})
  {
    var v, v', n := shown + rest, shown + [r] + rest, |shown|;
    var i :| 0 <= i < |v| && v[i].comment.Tracked? && v[i].comment.id in p && v[i].comment.id in t;
    ShiftedBy(shown, r, rest, i);
    var k := Shift(n, i);
    assert v'[n] == r;
    if v[i].comment.id == id {
      SameIdIsWrong(t, c, r, v[i], id);
      assert if k < n then OutOfOrder(t, c, v'[k], v'[n]) else OutOfOrder(t, c, v'[n], v'[k]);
    } else {
      assert v'[k].comment.id in p - {id};
    }
  }

  lemma SameIdIsWrong(t: Table, c: Chain, x: LiveRule, y: LiveRule, id: int)
    requires x.comment == Tracked(id) && y.comment == Tracked(id) && id in t && c in ChainsFor(t[id].rule)
    ensures OutOfOrder(t, c, x, y) && OutOfOrder(t, c, y, x)
  {
  }

  lemma BelatedStays(
      t: Table, shown: seq<LiveRule>, rest: seq<LiveRule>, p: set<int>, c: Chain, r: LiveRule, id: int)
    requires Belated(t, c, shown, p)
    requires id in p && r.comment == Tracked(id) && id in t && c in ChainsFor(t[id].rule)
    ensures Inverted(t, c, shown + [r] + rest) || Belated(t, c, shown + [r], p - {id})
  {
    hide Less;
    var v', n := shown + [r] + rest, |shown|;
    var i, q :| 0 <= i < n && q in p && ComesLate(t, c, shown[i], q);
    assert v'[i] == shown[i] == (shown + [r])[i] && v'[n] == r;
    if q == id {
      assert OutOfOrder(t, c, v'[i], v'[n]);
    } else {
      assert ComesLate(t, c, (shown + [r])[i], q) && q in p - {id};
    }
  }

  /** An add's command: right exactly when no rebuild is in the middle of its appends and no earlier add is still on its
      way. */
  lemma AppendPending(
      t: Table, shown: seq<LiveRule>, rest: seq<LiveRule>, p: set<int>, b: bool, c: Chain, row: Row, overtakes: bool)
    requires Claim(t, shown, rest, p, b, c) && Keyed(t) && PendingOk(t, p, c)
    requires row.id in p && t[row.id].rule == row.rule && !row.rule.ClientBlock?
    requires overtakes == exists q :: q in p && q < row.id
    ensures Claim(t, shown + [Printed(row, c)], rest, p - {row.id}, b || overtakes || rest != [], c)
  {
    var r := Printed(row, c);
    PrintedTag(row, c);
    hide Printed;
    if b {
      WrongStays(t, shown, rest, p, c, r, row.id);
    } else if rest != [] {
      AppendInside(t, shown, rest, p, c, r, row.id);
    } else if overtakes {
      hide Ordered, PrintAll;
      var q :| q in p && q < row.id;
      assert (shown + [r])[|shown|] == r && q in p - {row.id};
      assert Less(t[q], t[row.id]);
      assert ComesLate(t, c, (shown + [r])[|shown|], q);
    } else {
      assert shown + [] == shown;
      AppendInTurn(t, shown, p, c, row);
      assert shown + [r] + [] == shown + [r];
    }
  }

  lemma AppendInside(
      t: Table, shown: seq<LiveRule>, rest: seq<LiveRule>, p: set<int>, c: Chain, r: LiveRule, id: int)
    requires InPlace(t, shown + rest, p, c) && Keyed(t) && PendingOk(t, p, c)
    requires id in p && r.comment == Tracked(id) && rest != []
    ensures Wrong(t, shown + [r], rest, p - {id}, c)
  {
    hide Ordered, PrintAll, Names, Doubled, Belated;
    var v, v', n := shown + rest, shown + [r] + rest, |shown|;
    assert v[n] == rest[0] && v'[n] == r && v'[n + 1] == rest[0];
    NextIsEarlier(t, rest[0], p, c, r, id);
    assert OutOfOrder(t, c, v'[n], v'[n + 1]);
  }

  /** A rule of the rebuild belongs in front of one still to be appended. */
  lemma NextIsEarlier(t: Table, next: LiveRule, p: set<int>, c: Chain, r: LiveRule, id: int)
    requires next in PrintAll(Ordered(t - p, c), c) && Keyed(t) && PendingOk(t, p, c)
    requires forall q, x :: q in p && q in t && x in Ordered(t - p, c) ==> Less(x, t[q])
    requires id in p && r.comment == Tracked(id)
    ensures OutOfOrder(t, c, r, next)
  {
    hide Ordered, PrintAll;
    ShownIsRow(t - p, c, next);
    OrderedFacts(t - p, c);
    assert Less(t[next.comment.id], t[id]);
  }

  lemma AppendInTurn(t: Table, shown: seq<LiveRule>, p: set<int>, c: Chain, row: Row)
    requires InPlace(t, shown, p, c) && Keyed(t) && PendingOk(t, p, c)
    requires row.id in p && t[row.id].rule == row.rule && !(exists q :: q in p && q < row.id)
    ensures InPlace(t, shown + [Printed(row, c)], p - {row.id}, c)
  {
    hide Ordered, PrintAll;
    var base, mine := t - p, t[row.id];
    assert t - (p - {row.id}) == base[row.id := mine];
    BehindAll(base, mine, c);
    PrintAllConcat(Ordered(base, c), [mine], c);
    PrintAtMostOne([mine], c);
    assert Printed(mine, c) == Printed(row, c);
  }

  lemma BehindAll(t: Table, row: Row, c: Chain)
    requires Keyed(t) && row.id !in t && row.enabled && c in ChainsFor(row.rule)
    requires forall x :: x in Ordered(t, c) ==> Less(x, row)
    ensures Ordered(t[row.id := row], c) == Ordered(t, c) + [row]
  {
    hide Ordered;
    OrderedFacts(t, c);
    OrderedIs(t[row.id := row], c, Ordered(t, c) + [row]);
  }

  /** The rebuild's own append changes nothing about what the chain will show. */
  lemma NextRow(t: Table, shown: seq<LiveRule>, rest: seq<LiveRule>, p: set<int>, b: bool, c: Chain)
    requires rest != [] && Claim(t, shown, rest, p, b, c)
    ensures Claim(t, shown + [rest[0]], rest[1..], p, b, c)
  {
    hide Ordered, PrintAll, Less;
    assert shown + [rest[0]] + rest[1..] == shown + rest;
    if b && Belated(t, c, shown, p) {
      var i, q :| 0 <= i < |shown| && q in p && ComesLate(t, c, shown[i], q);
      assert (shown + [rest[0]])[i] == shown[i];
    }
  }

  /** The rule is tagged for a row in force. */
  ghost predicate InForce(t: Table, c: Chain, r: LiveRule) {
    Names(t, c, r) && t[r.comment.id].enabled
  }

  /** A rebuild that reads its rows: right exactly when no add appended since it listed the chain and none is on its
      way. */
  lemma AtRead(t: Table, late: seq<LiveRule>, p: set<int>, c: Chain)
    requires Keyed(t) && PendingOk(t, p, c) && forall r :: r in late ==> InForce(t, c, r)
    ensures Claim(t, late, PrintAll(Ordered(t, c), c), p, late != [] || (exists q :: q in p), c)
  {
    hide Ordered;
    var rest := PrintAll(Ordered(t, c), c);
    var v := late + rest;
    if late != [] {
      var r := late[0];
      assert r in late;
      RowIsShown(t, r.comment.id, c);
      var m :| 0 <= m < |rest| && rest[m] == Printed(t[r.comment.id], c);
      PrintedTag(t[r.comment.id], c);
      assert v[0] == r && v[|late| + m] == rest[m];
      assert OutOfOrder(t, c, v[0], v[|late| + m]);
    } else if q :| q in p {
      RowIsShown(t, q, c);
      var m :| 0 <= m < |rest| && rest[m] == Printed(t[q], c);
      PrintedTag(t[q], c);
      assert v == rest;
    } else {
      forall id | id in t
        ensures id !in p
      {
      }
      assert t - p == t;
      assert v == rest;
    }
  }

  /** With nothing left to come, a wrong chain is not in sync. */
  lemma WrongIsNotInSync(t: Table, shown: seq<LiveRule>, c: Chain)
    requires Keyed(t) && Wrong(t, shown, [], {}, c)
    ensures shown != PrintAll(Ordered(t, c), c)
  {
    hide Ordered, PrintAll;
    assert shown + [] == shown;
    var i, j :| 0 <= i < j < |shown| && OutOfOrder(t, c, shown[i], shown[j]);
    if shown == PrintAll(Ordered(t, c), c) {
      ShownInOrder(t, c, i, j);
    }
  }

  lemma ShownInOrder(t: Table, c: Chain, i: nat, j: nat)
    requires Keyed(t) && i < j < |PrintAll(Ordered(t, c), c)|
    ensures var v := PrintAll(Ordered(t, c), c);
            v[i].comment.Tracked? && v[j].comment.Tracked? && v[i].comment.id in t && v[j].comment.id in t
            && Less(t[v[i].comment.id], t[v[j].comment.id])
  {
    hide Ordered, Printed, Less;
    OrderedFacts(t, c);
    var rows := Ordered(t, c);
    assert rows[i] in rows && rows[j] in rows;
    PrintedTag(rows[i], c);
    PrintedTag(rows[j], c);
  }
}
