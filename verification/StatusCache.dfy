/** The client status cache: slow full snapshots and live pushes write the same session columns. */
module StatusCache {
  import opened Wrappers

  /** Offline stands for NULL in all five session columns. */
  datatype Session = Offline | Online(columns: string)

  /** A line of the client list. */
  datatype Listed = Listed(name: string, expiration: string, meta: string)

  /** Which write a row's session columns came from: a push, or an ingest and what it read about connections.  An ingest
      that hands over no start stamp overwrites whatever session is stored; its `start` is bookkeeping only. */
  datatype Source =
    | Pushed(at: nat, sessions: seq<(string, Session)>)
    | Ingested(start: nat, stamped: bool, connected: map<string, Session>)

  /** `born` is when the row was inserted, `bornFrom` the start stamp of the ingest that did; they and `source` are
      bookkeeping for the theorems. */
  datatype Row = Row(
    meta: string, expiration: string, session: Session, sessionAt: nat, changedAt: nat, born: nat, bornFrom: nat,
    source: Source)

  type Rows = map<string, Row>

  // ---------- the full snapshot ----------

  function Reading(connected: map<string, Session>, name: string): Session {
    if name in connected then connected[name] else Offline
  }

  /** INSERT ... ON CONFLICT DO UPDATE for one line: the stored session columns stay if they are younger than the
      snapshot's start stamp, if it has one; the renewal stamp moves if the expiration changed or the client was just
      touched. */
  function Upsert(rows: Rows, r: Listed, writer: Source, touched: Option<string>, now: nat): Rows
    requires writer.Ingested?
  {
    var session := Reading(writer.connected, r.name);
    if r.name !in rows then
      rows[r.name := Row(r.meta, r.expiration, session, now, now, now, writer.start, writer)]
    else
      var old' := rows[r.name];
      var younger := writer.stamped && old'.sessionAt > writer.start;
      var moves := touched == Some(r.name) || r.expiration != old'.expiration;
      rows[r.name := Row(
        r.meta, r.expiration,
        if younger then old'.session else session,
        if younger then old'.sessionAt else now,
        if moves then now else old'.changedAt,
        old'.born, old'.bornFrom,
        if younger then old'.source else writer)]
  }

  /** The clock moves on with every statement. */
  function UpsertAll(rows: Rows, rs: seq<Listed>, writer: Source, touched: Option<string>, now: nat): Rows
    requires writer.Ingested?
  {
    if rs == [] then rows
    else
      Upsert(UpsertAll(rows, rs[..|rs| - 1], writer, touched, now), rs[|rs| - 1], writer, touched, now + |rs| - 1)
  }

  ghost predicate IsListed(rs: seq<Listed>, name: string) {
    exists i :: 0 <= i < |rs| && rs[i].name == name
  }

  function NamesOf(rs: seq<Listed>): set<string> {
    set r | r in rs :: r.name
  }

  function StillListed(rows: Rows, rs: seq<Listed>): Rows {
    map name | name in rows && name in NamesOf(rs) :: rows[name]
  }

  /** replace_client_status_cache: drop the rows that are not listed, upsert the rest. */
  function Replaced(rows: Rows, rs: seq<Listed>, writer: Source, touched: Option<string>, now: nat): Rows
    requires writer.Ingested?
  {
    UpsertAll(StillListed(rows, rs), rs, writer, touched, now)
  }

  // ---------- the push ----------

  function WithSession(row: Row, session: Session, at: nat, writer: Source): Row {
    row.(session := session, sessionAt := at, source := writer)
  }

  /** UPDATE without WHERE: every session is cleared. */
  function Cleared(rows: Rows, at: nat, writer: Source): (r: Rows)
    ensures r.Keys == rows.Keys
  {
    map name | name in rows :: WithSession(rows[name], Offline, at, writer)
  }

  /** UPDATE of the rows with this name, compared without regard to case. */
  function Applied(lower: string -> string, rows: Rows, name: string, session: Session, at: nat, writer: Source)
    : (r: Rows)
    ensures r.Keys == rows.Keys
  {
    map n | n in rows :: if lower(n) == lower(name) then WithSession(rows[n], session, at, writer) else rows[n]
  }

  /** After clearing every row and applying the first n pushed sessions. */
  function PushedUpTo(lower: string -> string, rows: Rows, writer: Source, n: nat): (r: Rows)
    requires writer.Pushed? && n <= |writer.sessions|
    ensures r.Keys == rows.Keys
  {
    if n == 0 then Cleared(rows, writer.at, writer)
    else
      Applied(lower, PushedUpTo(lower, rows, writer, n - 1), writer.sessions[n - 1].0, writer.sessions[n - 1].1,
              writer.at + n, writer)
  }

  /** What the first n sessions of a push say about a client: the last one under its name. */
  function SaidUpTo(lower: string -> string, sessions: seq<(string, Session)>, n: nat, name: string): Session
    requires n <= |sessions|
  {
    if n == 0 then Offline
    else if lower(name) == lower(sessions[n - 1].0) then sessions[n - 1].1
    else SaidUpTo(lower, sessions, n - 1, name)
  }

  function Said(lower: string -> string, writer: Source, name: string): Session {
    match writer
    case Pushed(_, sessions) => SaidUpTo(lower, sessions, |sessions|, name)
    case Ingested(_, _, connected) => Reading(connected, name)
  }

  // ---------- what a push does to a row ----------

  /** Every client shows what the push says last under its name, letter case aside, or is offline if it says nothing;
      and nothing else about the row changes. */
  lemma {:induction false} PushShows(
      lower: string -> string, rows: Rows, at: nat, sessions: seq<(string, Session)>, n: nat, name: string)
    requires name in rows && n <= |sessions|
    ensures var after := PushedUpTo(lower, rows, Pushed(at, sessions), n)[name];
            && ((forall i :: 0 <= i < n ==> lower(sessions[i].0) != lower(name)) ==> after.session == Offline)
            && (forall i :: 0 <= i < n && lower(sessions[i].0) == lower(name)
                            && (forall j :: i < j < n ==> lower(sessions[j].0) != lower(name)) ==>
                  after.session == sessions[i].1)
            && after == rows[name].(session := after.session, sessionAt := after.sessionAt, source := after.source)
  {
    if n > 0 {
      PushShows(lower, rows, at, sessions, n - 1, name);
    }
  }

  // ---------- the two writers as they run ----------

  class Cache {
    var rows: Rows
    var clock: nat

    constructor ()
      ensures rows == map[] && clock == 0
    {
      rows, clock := map[], 0;
    }

    method Replace(rs: seq<Listed>, writer: Source, touched: Option<string>)
      requires writer.Ingested?
      modifies this
      ensures rows == Replaced(old(rows), rs, writer, touched, old(clock)) && clock == old(clock) + |rs|
    {
      var now := clock;
      rows := StillListed(rows, rs);
      ghost var kept := rows;
      for i := 0 to |rs|
        invariant rows == UpsertAll(kept, rs[..i], writer, touched, now) && clock == now + i
      {
        assert rs[..i + 1][..i] == rs[..i];
        rows := Upsert(rows, rs[i], writer, touched, clock);
        clock := clock + 1;
      }
      assert rs[..|rs|] == rs;
    }

    method Push(lower: string -> string, sessions: seq<(string, Session)>)
      modifies this
      ensures rows == PushedUpTo(lower, old(rows), Pushed(old(clock), sessions), |sessions|)
      ensures clock == old(clock) + |sessions| + 1
    {
      hide Cleared, Applied;
      var writer := Pushed(clock, sessions);
      rows := Cleared(rows, clock, writer);
      clock := clock + 1;
      for i := 0 to |sessions|
        invariant rows == PushedUpTo(lower, old(rows), writer, i) && clock == writer.at + i + 1
      {
        rows := Applied(lower, rows, sessions[i].0, sessions[i].1, clock, writer);
        clock := clock + 1;
      }
    }
  }

  // ---------- the renewal stamp ----------

  lemma {:induction false} UpsertedNames(rows: Rows, rs: seq<Listed>, writer: Source, touched: Option<string>, now: nat)
    requires writer.Ingested?
    ensures UpsertAll(rows, rs, writer, touched, now).Keys == rows.Keys + NamesOf(rs)
  {
    if rs != [] {
      UpsertedNames(rows, rs[..|rs| - 1], writer, touched, now);
      assert rs == rs[..|rs| - 1] + [rs[|rs| - 1]];
    }
  }

  /** Some line for the client is reason to move its stamp. */
  ghost predicate Moves(rs: seq<Listed>, name: string, expiration: string, touched: Option<string>) {
    exists i :: 0 <= i < |rs| && rs[i].name == name && (touched == Some(name) || rs[i].expiration != expiration)
  }

  lemma {:induction false} StampOver(rows: Rows, rs: seq<Listed>, writer: Source, touched: Option<string>, now: nat,
      name: string)
    requires writer.Ingested? && name in rows && rows[name].changedAt < now
    ensures name in UpsertAll(rows, rs, writer, touched, now)
    ensures var after := UpsertAll(rows, rs, writer, touched, now)[name];
            && (Moves(rs, name, rows[name].expiration, touched) <==> after.changedAt != rows[name].changedAt)
            && after.changedAt < now + |rs|
            && (!Moves(rs, name, rows[name].expiration, touched) ==> after.expiration == rows[name].expiration)
  {
    if rs != [] {
      var front, r := rs[..|rs| - 1], rs[|rs| - 1];
      StampOver(rows, front, writer, touched, now, name);
      var expiration := rows[name].expiration;
      assert Moves(rs, name, expiration, touched)
             <==> Moves(front, name, expiration, touched)
                  || (r.name == name && (touched == Some(name) || r.expiration != expiration)) by {
        if i :| 0 <= i < |front| && front[i].name == name
                && (touched == Some(name) || front[i].expiration != expiration) {
          assert rs[i] == front[i];
        }
        if i :| 0 <= i < |rs| && rs[i].name == name && (touched == Some(name) || rs[i].expiration != expiration) {
          assert i < |front| ==> front[i] == rs[i];
        }
      }
    }
  }

  /** A stored client's stamp moves exactly when it was just touched, or some line for it shows another expiration than
      the stored one. */
  lemma StampMovesIff(rows: Rows, rs: seq<Listed>, writer: Source, touched: Option<string>, now: nat, name: string)
    requires writer.Ingested? && name in rows && rows[name].changedAt < now && IsListed(rs, name)
    ensures name in Replaced(rows, rs, writer, touched, now)
    ensures Replaced(rows, rs, writer, touched, now)[name].changedAt != rows[name].changedAt
            <==> touched == Some(name)
                 || exists i :: 0 <= i < |rs| && rs[i].name == name && rs[i].expiration != rows[name].expiration
  {
    var kept := StillListed(rows, rs);
    var i :| 0 <= i < |rs| && rs[i].name == name;
    assert rs[i] in rs;
    StampOver(kept, rs, writer, touched, now, name);
  }

  ghost predicate DistinctNames(rs: seq<Listed>) {
    forall i, j :: 0 <= i < j < |rs| ==> rs[i].name != rs[j].name
  }

  /** With one line per name: exactly the listed clients remain, each as listed, and the stamp moves exactly when the
      row is new, its expiration changed, or it was touched. */
  lemma StampOfDistinctNames(rows: Rows, rs: seq<Listed>, writer: Source, touched: Option<string>, now: nat, i: nat)
    requires writer.Ingested? && DistinctNames(rs) && i < |rs|
    requires forall name :: name in rows ==> rows[name].changedAt < now
    ensures var name := rs[i].name;
            var after := Replaced(rows, rs, writer, touched, now);
            && after.Keys == NamesOf(rs)
            && name in after && after[name].expiration == rs[i].expiration && after[name].meta == rs[i].meta
            && (name in rows ==>
                  (after[name].changedAt != rows[name].changedAt
                   <==> touched == Some(name) || rs[i].expiration != rows[name].expiration))
            && (name !in rows ==> after[name].changedAt >= now)
  {
    var name := rs[i].name;
    var kept := StillListed(rows, rs);
    UpsertedNames(kept, rs, writer, touched, now);
    assert rs[i] in rs;
    LineDecides(kept, rs, writer, touched, now, i);
    if name in rows {
      StampMovesIff(rows, rs, writer, touched, now, name);
    }
  }

  lemma {:induction false} LineDecides(rows: Rows, rs: seq<Listed>, writer: Source, touched: Option<string>, now: nat,
      i: nat)
    requires writer.Ingested? && DistinctNames(rs) && i < |rs|
    ensures var after := UpsertAll(rows, rs, writer, touched, now);
            && rs[i].name in after && after[rs[i].name].expiration == rs[i].expiration
            && after[rs[i].name].meta == rs[i].meta
            && (rs[i].name !in rows ==> after[rs[i].name].changedAt >= now)
  {
    var front := rs[..|rs| - 1];
    if i < |front| {
      LineDecides(rows, front, writer, touched, now, i);
      hide UpsertAll;
    } else {
      UpsertedNames(rows, front, writer, touched, now);
      assert rs[i].name !in NamesOf(front);
    }
  }

  lemma {:induction false} OthersUntouched(
      rows: Rows, rs: seq<Listed>, writer: Source, touched: Option<string>, now: nat, name: string)
    requires writer.Ingested? && name !in NamesOf(rs)
    ensures name in UpsertAll(rows, rs, writer, touched, now) <==> name in rows
    ensures name in rows ==> UpsertAll(rows, rs, writer, touched, now)[name] == rows[name]
  {
    if rs != [] {
      assert rs == rs[..|rs| - 1] + [rs[|rs| - 1]];
      OthersUntouched(rows, rs[..|rs| - 1], writer, touched, now, name);
    }
  }

  /** Of several lines for a name the last one is shown. */
  lemma LastLineWins(rows: Rows, rs: seq<Listed>, writer: Source, touched: Option<string>, now: nat, i: nat)
    requires writer.Ingested? && i < |rs| && forall j :: i < j < |rs| ==> rs[j].name != rs[i].name
    ensures var after := Replaced(rows, rs, writer, touched, now);
            && rs[i].name in after
            && after[rs[i].name].expiration == rs[i].expiration && after[rs[i].name].meta == rs[i].meta
  {
    LastLineStays(StillListed(rows, rs), rs, writer, touched, now, i);
  }

  lemma {:induction false} LastLineStays(
      rows: Rows, rs: seq<Listed>, writer: Source, touched: Option<string>, now: nat, i: nat)
    requires writer.Ingested? && i < |rs| && forall j :: i < j < |rs| ==> rs[j].name != rs[i].name
    ensures var after := UpsertAll(rows, rs, writer, touched, now);
            && rs[i].name in after
            && after[rs[i].name].expiration == rs[i].expiration && after[rs[i].name].meta == rs[i].meta
  {
    if i < |rs| - 1 {
      LastLineStays(rows, rs[..|rs| - 1], writer, touched, now, i);
    }
  }

  /** A listed client, however often it is listed, shows what the snapshot read about it, unless a stamp tells that the
      stored session is younger. */
  lemma SessionOfListed(rows: Rows, rs: seq<Listed>, writer: Source, touched: Option<string>, now: nat, name: string)
    requires writer.Ingested? && IsListed(rs, name)
    ensures var after := Replaced(rows, rs, writer, touched, now);
            && name in after
            && after[name].session
               == if name in rows && writer.stamped && rows[name].sessionAt > writer.start then rows[name].session
                  else Reading(writer.connected, name)
  {
    var i :| 0 <= i < |rs| && rs[i].name == name;
    assert rs[i] in rs;
    SessionOfLine(StillListed(rows, rs), rs, writer, touched, now, name);
  }

  lemma {:induction false} SessionOfLine(
      rows: Rows, rs: seq<Listed>, writer: Source, touched: Option<string>, now: nat, name: string)
    requires writer.Ingested? && name in NamesOf(rs)
    ensures var after := UpsertAll(rows, rs, writer, touched, now);
            && name in after
            && (after[name].session
                == if name in rows && writer.stamped && rows[name].sessionAt > writer.start then rows[name].session
                   else Reading(writer.connected, name))
            && (name in rows && writer.stamped && rows[name].sessionAt > writer.start ==>
                  after[name].sessionAt > writer.start)
  {
    var front := rs[..|rs| - 1];
    assert rs == front + [rs[|rs| - 1]];
    if name in NamesOf(front) {
      SessionOfLine(rows, front, writer, touched, now, name);
    } else {
      OthersUntouched(rows, front, writer, touched, now, name);
    }
  }

  /** A name listed twice with different expirations moves its stamp on every snapshot, though nothing changed. */
  lemma RepeatedNameAlwaysMoves(rows: Rows, rs: seq<Listed>, writer: Source, now: nat, i: nat, j: nat)
    requires writer.Ingested? && i < j < |rs| && rs[i].name == rs[j].name && rs[i].expiration != rs[j].expiration
    requires rs[i].name in rows && rows[rs[i].name].changedAt < now
    ensures rs[i].name in Replaced(rows, rs, writer, None, now)
    ensures Replaced(rows, rs, writer, None, now)[rs[i].name].changedAt != rows[rs[i].name].changedAt
  {
    StampMovesIff(rows, rs, writer, None, now, rs[i].name);
    assert rs[i].expiration != rows[rs[i].name].expiration || rs[j].expiration != rows[rs[i].name].expiration;
  }
}
