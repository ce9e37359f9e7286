/** Ingests and pushes in any interleaving: a live push beats every snapshot that began before it. */
module StatusRaces {
  import opened Wrappers
  import opened StatusCache

  /** One run of the ingest: it took its stamp; it has its client list and passed the empty-result guard; it is over. */
  datatype Ingest = Started(stamp: nat) | Ready(stamp: nat, clients: seq<Listed>) | Over

  datatype System = System(rows: Rows, clock: nat, ingests: seq<Ingest>, latest: Option<Source>)

  datatype Action =
    | Begin
    | ReadList(k: nat, clients: seq<Listed>, allowEmpty: bool)
    | Fail(k: nat)
    | Commit(k: nat, connected: map<string, Session>, touched: Option<string>)
    | Push(sessions: seq<(string, Session)>)

  /** Transactions are atomic; an action that is not possible changes nothing. */
  function Do(lower: string -> string, s: System, a: Action): System {
    match a
    case Begin => s.(clock := s.clock + 1, ingests := s.ingests + [Started(s.clock)])
    case ReadList(k, clients, allowEmpty) =>
      if k < |s.ingests| && s.ingests[k].Started? then
        s.(ingests := s.ingests[k := if clients == [] && !allowEmpty && s.rows != map[] then Over
                                     else Ready(s.ingests[k].stamp, clients)])
      else s
    case Fail(k) => if k < |s.ingests| then s.(ingests := s.ingests[k := Over]) else s
    case Commit(k, connected, touched) =>
      if k < |s.ingests| && s.ingests[k].Ready? then
        var i := s.ingests[k];
        System(Replaced(s.rows, i.clients, Ingested(i.stamp, true, connected), touched, s.clock),
               s.clock + |i.clients| + 1, s.ingests[k := Over], s.latest)
      else s
    case Push(sessions) =>
      var writer := Pushed(s.clock, sessions);
      s.(rows := PushedUpTo(lower, s.rows, writer, |sessions|), clock := s.clock + |sessions| + 1,
        latest := Some(writer))
  }

  function Exec(lower: string -> string, schedule: seq<Action>): System {
    if schedule == [] then System(map[], 0, [], None)
    else Do(lower, Exec(lower, schedule[..|schedule| - 1]), schedule[|schedule| - 1])
  }

  // ---------- the invariant ----------

  /** Either the latest push wrote the session, or an ingest that began after it, or the row did not exist yet. */
  ghost predicate Fresh(latest: Option<Source>, row: Row) {
    match latest
    case None => row.source.Ingested?
    case Some(push) =>
      push.Pushed? &&
      (row.source == push || (row.source.Ingested? && (row.source.start > push.at || row.born > push.at)))
  }

  ghost predicate RowInv(lower: string -> string, latest: Option<Source>, clock: nat, name: string, row: Row) {
    && row.session == Said(lower, row.source, name)
    && row.born <= row.sessionAt < clock && row.changedAt < clock
    && (latest.Some? ==> latest.value.Pushed? && latest.value.at <= row.sessionAt && latest.value.at < clock)
    && Fresh(latest, row)
    && (if row.sessionAt == row.born then row.source.Ingested? && row.source.start == row.bornFrom
        else row.source.Pushed? || row.source.start >= row.born)
  }

  ghost predicate AllRows(lower: string -> string, latest: Option<Source>, clock: nat, rows: Rows) {
    forall name :: name in rows ==> RowInv(lower, latest, clock, name, rows[name])
  }

  ghost predicate Inv(lower: string -> string, s: System) {
    && AllRows(lower, s.latest, s.clock, s.rows)
    && (forall i :: 0 <= i < |s.ingests| && !s.ingests[i].Over? ==>
          s.ingests[i].stamp < s.clock
          && (s.latest.Some? && s.latest.value.Pushed? ==> s.ingests[i].stamp != s.latest.value.at))
    && (s.latest.Some? ==> s.latest.value.Pushed? && s.latest.value.at < s.clock)
  }

  lemma UpsertKeepsRow(lower: string -> string, latest: Option<Source>, rows: Rows, r: Listed, writer: Source,
                       touched: Option<string>, now: nat, name: string)
    requires writer.Ingested? && writer.stamped && writer.start < now
    requires latest.Some? ==> latest.value.Pushed? && latest.value.at < now && latest.value.at != writer.start
    requires name in rows ==> RowInv(lower, latest, now, name, rows[name])
    requires name in Upsert(rows, r, writer, touched, now)
    ensures RowInv(lower, latest, now + 1, name, Upsert(rows, r, writer, touched, now)[name])
  {
  }

  lemma UpsertKeepsRows(lower: string -> string, latest: Option<Source>, rows: Rows, r: Listed, writer: Source,
                        touched: Option<string>, now: nat)
    requires writer.Ingested? && writer.stamped && writer.start < now
    requires latest.Some? ==> latest.value.Pushed? && latest.value.at < now && latest.value.at != writer.start
    requires AllRows(lower, latest, now, rows)
    ensures AllRows(lower, latest, now + 1, Upsert(rows, r, writer, touched, now))
  {
    hide RowInv, Upsert;
    forall name | name in Upsert(rows, r, writer, touched, now)
      ensures RowInv(lower, latest, now + 1, name, Upsert(rows, r, writer, touched, now)[name])
    {
      UpsertKeepsRow(lower, latest, rows, r, writer, touched, now, name);
    }
  }

  lemma {:induction false} UpsertsKeepRows(lower: string -> string, latest: Option<Source>, rows: Rows, rs: seq<Listed>,
                                           writer: Source, touched: Option<string>, now: nat)
    requires writer.Ingested? && writer.stamped && writer.start < now
    requires latest.Some? ==> latest.value.Pushed? && latest.value.at < now && latest.value.at != writer.start
    requires AllRows(lower, latest, now, rows)
    ensures AllRows(lower, latest, now + |rs|, UpsertAll(rows, rs, writer, touched, now))
  {
    hide AllRows, Upsert;
    if rs != [] {
      var front := rs[..|rs| - 1];
      UpsertsKeepRows(lower, latest, rows, front, writer, touched, now);
      UpsertKeepsRows(lower, latest, UpsertAll(rows, front, writer, touched, now), rs[|rs| - 1], writer, touched,
                      now + |rs| - 1);
    }
  }

  lemma RowsLater(lower: string -> string, latest: Option<Source>, clock: nat, clock': nat, rows: Rows)
    requires AllRows(lower, latest, clock, rows) && clock <= clock'
    ensures AllRows(lower, latest, clock', rows)
  {
  }

  lemma CommitKeepsInv(lower: string -> string, s: System, k: nat, connected: map<string, Session>,
      touched: Option<string>)
    requires Inv(lower, s)
    ensures Inv(lower, Do(lower, s, Commit(k, connected, touched)))
  {
    var s' := Do(lower, s, Commit(k, connected, touched));
    if k < |s.ingests| && s.ingests[k].Ready? {
      var i := s.ingests[k];
      var writer := Ingested(i.stamp, true, connected);
      UpsertsKeepRows(lower, s.latest, StillListed(s.rows, i.clients), i.clients, writer, touched, s.clock);
      RowsLater(lower, s.latest, s.clock + |i.clients|, s'.clock, s'.rows);
    }
  }

  /** A row after the first n sessions of a push. */
  ghost predicate PushRow(lower: string -> string, writer: Source, n: nat, name: string, row: Row)
    requires writer.Pushed? && n <= |writer.sessions|
  {
    && row.session == SaidUpTo(lower, writer.sessions, n, name)
    && row.source == writer && writer.at <= row.sessionAt <= writer.at + n
  }

  lemma {:induction false} PushWritesAll(lower: string -> string, rows: Rows, writer: Source, n: nat)
    requires writer.Pushed? && n <= |writer.sessions|
    ensures var after := PushedUpTo(lower, rows, writer, n);
            forall name :: name in after ==>
              PushRow(lower, writer, n, name, after[name])
              && after[name].born == rows[name].born && after[name].changedAt == rows[name].changedAt
  {
    if n > 0 {
      PushWritesAll(lower, rows, writer, n - 1);
    }
  }

  lemma PushKeepsInv(lower: string -> string, s: System, sessions: seq<(string, Session)>)
    requires Inv(lower, s)
    ensures Inv(lower, Do(lower, s, Push(sessions)))
  {
    var writer := Pushed(s.clock, sessions);
    PushWritesAll(lower, s.rows, writer, |sessions|);
    hide PushedUpTo;
    var s' := Do(lower, s, Push(sessions));
    forall name | name in s'.rows
      ensures RowInv(lower, s'.latest, s'.clock, name, s'.rows[name])
    {
      assert RowInv(lower, s.latest, s.clock, name, s.rows[name]);
      assert PushRow(lower, writer, |sessions|, name, s'.rows[name]);
    }
  }

  lemma DoKeepsInv(lower: string -> string, s: System, a: Action)
    requires Inv(lower, s)
    ensures Inv(lower, Do(lower, s, a))
  {
    match a {
      case Commit(k, connected, touched) => CommitKeepsInv(lower, s, k, connected, touched);
      case Push(sessions) => PushKeepsInv(lower, s, sessions);
      case _ => QuietKeepsInv(lower, s, a);
    }
  }

  lemma QuietKeepsInv(lower: string -> string, s: System, a: Action)
    requires Inv(lower, s) && (a.Begin? || a.ReadList? || a.Fail?)
    ensures Inv(lower, Do(lower, s, a))
  {
    RowsLater(lower, s.latest, s.clock, Do(lower, s, a).clock, s.rows);
  }

  lemma {:induction false} ExecInv(lower: string -> string, schedule: seq<Action>)
    ensures Inv(lower, Exec(lower, schedule))
  {
    if schedule != [] {
      hide Inv, Do;
      ExecInv(lower, schedule[..|schedule| - 1]);
      DoKeepsInv(lower, Exec(lower, schedule[..|schedule| - 1]), schedule[|schedule| - 1]);
    }
  }

  // ---------- the main results ----------

  /** After any interleaving, a row that existed at the latest push shows what that push said about its client, or what
      an ingest read that began after the push. */
  lemma PushBeatsStaleIngest(lower: string -> string, schedule: seq<Action>, name: string)
    requires var s := Exec(lower, schedule);
             name in s.rows && s.latest.Some? && s.latest.value.Pushed? && s.rows[name].born < s.latest.value.at
    ensures var s := Exec(lower, schedule);
            var row := s.rows[name];
            && row.session == Said(lower, row.source, name)
            && (row.source == s.latest.value || (row.source.Ingested? && row.source.start > s.latest.value.at))
  {
    ExecInv(lower, schedule);
    var s := Exec(lower, schedule);
    assert RowInv(lower, s.latest, s.clock, name, s.rows[name]);
  }

  /** Every row, however old, repeats what some write really said, never a mixture. */
  lemma SessionsAreNeverMixed(lower: string -> string, schedule: seq<Action>, name: string)
    requires name in Exec(lower, schedule).rows
    ensures var s := Exec(lower, schedule);
            s.rows[name].session == Said(lower, s.rows[name].source, name) && Fresh(s.latest, s.rows[name])
  {
    ExecInv(lower, schedule);
    var s := Exec(lower, schedule);
    assert RowInv(lower, s.latest, s.clock, name, s.rows[name]);
  }

  /** A row inserted after the latest push shows an older reading exactly when the ingest that inserted it began before
      the push and its session has not been written since: no ingest that began later has committed. */
  lemma NewRowIsStaleIff(lower: string -> string, schedule: seq<Action>, name: string)
    requires var s := Exec(lower, schedule);
             name in s.rows && s.latest.Some? && s.latest.value.Pushed? && s.latest.value.at < s.rows[name].born
    ensures var s := Exec(lower, schedule);
            var row := s.rows[name];
            row.source.Ingested? && row.source.start < s.latest.value.at
            <==> row.bornFrom < s.latest.value.at && row.sessionAt == row.born
  {
    ExecInv(lower, schedule);
    var s := Exec(lower, schedule);
    assert RowInv(lower, s.latest, s.clock, name, s.rows[name]);
  }

  /** The row must have existed: an ingest that began before a push inserts a new row with its old reading. */
  lemma NewRowMayBeStale(lower: string -> string, name: string, online: string)
    ensures var connected := map[name := Online(online)];
            var schedule := [Begin, ReadList(0, [Listed(name, "", "")], false), Push([(name, Offline)]),
                             Commit(0, connected, None)];
            var s := Exec(lower, schedule);
            && name in s.rows && s.latest == Some(Pushed(1, [(name, Offline)]))
            && s.rows[name].session == Online(online) && s.rows[name].source == Ingested(0, true, connected)
  {
    var clients := [Listed(name, "", "")];
    var connected := map[name := Online(online)];
    var schedule := [Begin, ReadList(0, clients, false), Push([(name, Offline)]), Commit(0, connected, None)];
    assert schedule[..3][..2] == schedule[..2] && schedule[..2][..1] == schedule[..1] && schedule[..1][..0] == [];
    var writer := Pushed(1, [(name, Offline)]);
    assert Exec(lower, schedule[..1]) == System(map[], 1, [Started(0)], None);
    assert Exec(lower, schedule[..2]) == System(map[], 1, [Ready(0, clients)], None);
    assert PushedUpTo(lower, map[], writer, 1) == map[];
    var s := Exec(lower, schedule[..3]);
    assert s == Do(lower, Exec(lower, schedule[..2]), schedule[2]);
    assert s == System(map[], 3, [Ready(0, clients)], Some(writer));
    ReplacedInEmpty(clients, Ingested(0, true, connected), None, 3);
    UpsertOne(map[], clients[0], Ingested(0, true, connected), None, 3);
    assert Exec(lower, schedule) == Do(lower, s, Commit(0, connected, None));
  }

  lemma UpsertOne(rows: Rows, r: Listed, writer: Source, touched: Option<string>, now: nat)
    requires writer.Ingested?
    ensures UpsertAll(rows, [r], writer, touched, now) == Upsert(rows, r, writer, touched, now)
  {
    assert [r][..0] == [];
  }

  lemma ReplacedInEmpty(rs: seq<Listed>, writer: Source, touched: Option<string>, now: nat)
    requires writer.Ingested?
    ensures Replaced(map[], rs, writer, touched, now) == UpsertAll(map[], rs, writer, touched, now)
  {
    assert StillListed(map[], rs) == map[];
  }

  // ---------- the empty-result guard ----------

  function ExecFrom(lower: string -> string, s: System, schedule: seq<Action>): System {
    if schedule == [] then s
    else Do(lower, ExecFrom(lower, s, schedule[..|schedule| - 1]), schedule[|schedule| - 1])
  }

  /** The client list of the last commit that took effect. */
  function LastList(lower: string -> string, s: System, schedule: seq<Action>): Option<seq<Listed>> {
    if schedule == [] then None
    else
      var before, a := ExecFrom(lower, s, schedule[..|schedule| - 1]), schedule[|schedule| - 1];
      if a.Commit? && a.k < |before.ingests| && before.ingests[a.k].Ready? then Some(before.ingests[a.k].clients)
      else LastList(lower, s, schedule[..|schedule| - 1])
  }

  lemma ReplacedNames(rows: Rows, rs: seq<Listed>, writer: Source, touched: Option<string>, now: nat)
    requires writer.Ingested?
    ensures Replaced(rows, rs, writer, touched, now).Keys == NamesOf(rs)
  {
    UpsertedNames(StillListed(rows, rs), rs, writer, touched, now);
  }

  /** An ingest that nobody disturbs: exactly the listed clients have rows afterwards, unless it read an empty list that
      it was not told to accept and there was something to lose. */
  lemma IngestAlone(lower: string -> string, s: System, clients: seq<Listed>, allowEmpty: bool,
                    connected: map<string, Session>, touched: Option<string>)
    ensures var k := |s.ingests|;
            var read := Do(lower, Do(lower, s, Begin), ReadList(k, clients, allowEmpty));
            var t := Do(lower, read, Commit(k, connected, touched));
            if clients == [] && !allowEmpty && s.rows != map[] then t.rows == s.rows
            else forall name :: name in t.rows <==> IsListed(clients, name)
  {
    hide Replaced;
    var k := |s.ingests|;
    var read := Do(lower, Do(lower, s, Begin), ReadList(k, clients, allowEmpty));
    ReplacedNames(read.rows, clients, Ingested(s.clock, true, connected), touched, read.clock);
    NamesAreListed(clients);
  }

  lemma NamesAreListed(rs: seq<Listed>)
    ensures forall name :: name in NamesOf(rs) <==> IsListed(rs, name)
  {
    forall name
      ensures name in NamesOf(rs) <==> IsListed(rs, name)
    {
      if i :| 0 <= i < |rs| && rs[i].name == name { assert rs[i] in rs; }
    }
  }

  /** Which clients have rows is decided by the last commit alone. */
  lemma {:induction false} LastCommitNames(lower: string -> string, s: System, schedule: seq<Action>)
    ensures ExecFrom(lower, s, schedule).rows.Keys
         == if LastList(lower, s, schedule).Some? then NamesOf(LastList(lower, s, schedule).value) else s.rows.Keys
  {
    if schedule != [] {
      hide Replaced, PushedUpTo;
      var before, a := ExecFrom(lower, s, schedule[..|schedule| - 1]), schedule[|schedule| - 1];
      LastCommitNames(lower, s, schedule[..|schedule| - 1]);
      if a.Commit? && a.k < |before.ingests| && before.ingests[a.k].Ready? {
        var i := before.ingests[a.k];
        ReplacedNames(before.rows, i.clients, Ingested(i.stamp, true, a.connected), a.touched, before.clock);
      }
    }
  }

  /** An ingest behind its guard keeps its list until it is over. */
  lemma {:induction false} ReadyStays(lower: string -> string, s: System, schedule: seq<Action>, k: nat)
    requires k < |s.ingests| && s.ingests[k].Ready?
    ensures k < |ExecFrom(lower, s, schedule).ingests|
    ensures ExecFrom(lower, s, schedule).ingests[k] == s.ingests[k] || ExecFrom(lower, s, schedule).ingests[k].Over?
  {
    if schedule != [] {
      hide Replaced, PushedUpTo;
      ReadyStays(lower, s, schedule[..|schedule| - 1], k);
    }
  }

  /** A routine ingest that read an empty list and passed its guard removes a row if and only if the last commit between
      its guard and its own stored a list that was not empty. */
  lemma EmptyListRemovesIff(lower: string -> string, s: System, k: nat, between: seq<Action>,
                            connected: map<string, Session>, touched: Option<string>)
    requires k < |s.ingests| && s.ingests[k].Started?
    requires var checked := Do(lower, s, ReadList(k, [], false));
             checked.ingests[k].Ready? && k < |ExecFrom(lower, checked, between).ingests|
             && ExecFrom(lower, checked, between).ingests[k].Ready?
    ensures var checked := Do(lower, s, ReadList(k, [], false));
            var before := ExecFrom(lower, checked, between);
            var after := Do(lower, before, Commit(k, connected, touched));
            var last := LastList(lower, checked, between);
            (exists name :: name in before.rows && name !in after.rows) <==> last.Some? && last.value != []
  {
    var checked := Do(lower, s, ReadList(k, [], false));
    var before := ExecFrom(lower, checked, between);
    var last := LastList(lower, checked, between);
    LastCommitNames(lower, checked, between);
    ReadyStays(lower, checked, between, k);
    ReplacedNames(before.rows, [], Ingested(before.ingests[k].stamp, true, connected), touched, before.clock);
    hide Replaced, ExecFrom;
    assert NamesOf([]) == {};
    if last.Some? && last.value != [] {
      assert last.value[0] in last.value && last.value[0].name in NamesOf(last.value);
      assert last.value[0].name in before.rows.Keys;
    } else {
      assert before.rows.Keys == {};
    }
  }

  /** Such a schedule: a routine ingest wipes what another one had just stored. */
  lemma EmptyGuardCanRace(lower: string -> string, name: string)
    ensures var schedule := [Begin, Begin, ReadList(0, [], false), ReadList(1, [Listed(name, "", "")], false),
                             Commit(1, map[], None), Commit(0, map[], None)];
            name in Exec(lower, schedule[..5]).rows && Exec(lower, schedule).rows == map[]
  {
    hide Do, Exec;
    var clients := [Listed(name, "", "")];
    var schedule := [Begin, Begin, ReadList(0, [], false), ReadList(1, clients, false), Commit(1, map[], None),
                     Commit(0, map[], None)];
    BothReady(lower, clients);
    assert schedule[..4] == [Begin, Begin, ReadList(0, [], false), ReadList(1, clients, false)];
    assert schedule[..5] == schedule[..4] + [Commit(1, map[], None)];
    ExecNext(lower, schedule[..4], Commit(1, map[], None));
    FirstCommit(lower, clients);
    var s := Exec(lower, schedule[..5]);
    assert schedule == schedule[..5] + [Commit(0, map[], None)];
    ExecNext(lower, schedule[..5], Commit(0, map[], None));
    EmptyCommit(lower, s);
    assert clients[0] in clients;
  }

  lemma ExecNext(lower: string -> string, schedule: seq<Action>, a: Action)
    ensures Exec(lower, schedule + [a]) == Do(lower, Exec(lower, schedule), a)
  {
    hide Do;
    assert (schedule + [a])[..|schedule|] == schedule;
  }

  /** Both ingests have passed the guard, one with an empty list. */
  lemma BothReady(lower: string -> string, clients: seq<Listed>)
    requires clients != []
    ensures Exec(lower, [Begin, Begin, ReadList(0, [], false), ReadList(1, clients, false)])
            == System(map[], 2, [Ready(0, []), Ready(1, clients)], None)
  {
    var schedule := [Begin, Begin, ReadList(0, [], false), ReadList(1, clients, false)];
    assert schedule[..3][..2] == schedule[..2] && schedule[..2][..1] == schedule[..1] && schedule[..1][..0] == [];
    assert Exec(lower, schedule[..1]) == System(map[], 1, [Started(0)], None);
    assert Exec(lower, schedule[..2]) == System(map[], 2, [Started(0), Started(1)], None);
    assert Exec(lower, schedule[..3]) == System(map[], 2, [Ready(0, []), Started(1)], None);
  }

  lemma FirstCommit(lower: string -> string, clients: seq<Listed>)
    ensures var s := Do(lower, System(map[], 2, [Ready(0, []), Ready(1, clients)], None), Commit(1, map[], None));
            s.rows.Keys == NamesOf(clients) && |s.ingests| == 2 && s.ingests[0] == Ready(0, [])
  {
    ReplacedInEmpty(clients, Ingested(1, true, map[]), None, 2);
    UpsertedNames(map[], clients, Ingested(1, true, map[]), None, 2);
  }

  lemma EmptyCommit(lower: string -> string, s: System)
    requires |s.ingests| == 2 && s.ingests[0] == Ready(0, [])
    ensures Do(lower, s, Commit(0, map[], None)).rows == map[]
  {
  }
}
