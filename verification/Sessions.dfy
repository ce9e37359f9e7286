/** Reconstruction of login sessions from the log of connects, disconnects, restarts and observation gaps. */
module Sessions {
  import opened Wrappers
  import opened Sequences
  import opened Sorting

  // ---------- events and sessions ----------

  /** `at` is a second.  A gap is filed under the moment records resumed. */
  datatype Event =
    | Gap(at: int, lastSeen: int)
    | Restart(at: int)
    | Remark(at: int)
    | Connected(at: int, client: string, address: string, resolved: Option<string>)
    | Disconnected(at: int, client: string, address: string)

  datatype Ending = Logged | Estimated | Interrupted | Superseded | Ongoing

  /** `from` is the number of the event the session stems from: its connect, or a disconnect without one. */
  datatype Session = Session(
    client: string, start: Option<int>, end: Option<int>, address: string, resolved: Option<string>,
    ending: Ending, from: nat)

  datatype Open = Open(client: string, start: int, address: string, resolved: Option<string>, from: nat)

  /** `open` lists the dictionary in insertion order. */
  datatype State = State(open: seq<Open>, cut: set<(string, string)>, sessions: seq<Session>)

  function Ended(o: Open, end: Option<int>, ending: Ending): Session {
    Session(o.client, Some(o.start), end, o.address, o.resolved, ending, o.from)
  }

  function EndedAs(end: Option<int>, ending: Ending): Open -> Session {
    (o: Open) => Ended(o, end, ending)
  }

  function HitBy(lastSeen: int): Open -> bool {
    (o: Open) => o.start <= lastSeen
  }

  function MissedBy(lastSeen: int): Open -> bool {
    (o: Open) => o.start > lastSeen
  }

  // ---------- the pass over the events ----------

  function Find(open: seq<Open>, client: string): (r: Option<Open>)
    ensures r.Some? <==> exists o :: o in open && o.client == client
    ensures r.Some? ==> r.value in open && r.value.client == client
  {
    if open == [] then None
    else if open[0].client == client then Some(open[0])
    else Find(open[1..], client)
  }

  /** Assigning to a key that is present keeps its place; a new key comes last. */
  function Put(open: seq<Open>, o: Open): (r: seq<Open>)
    ensures forall p :: p in r ==> p == o || p in open
    ensures o in r
  {
    if open == [] then [o]
    else if open[0].client == o.client then [o] + open[1..]
    else [open[0]] + Put(open[1..], o)
  }

  /** Where the dictionary has the client its entry is replaced in place, and otherwise the entry comes last. */
  lemma {:induction false} PutKeepsPlace(open: seq<Open>, o: Open, i: nat)
    requires i <= |open| && forall j :: 0 <= j < i ==> open[j].client != o.client
    requires i < |open| ==> open[i].client == o.client
    ensures Put(open, o) == open[..i] + [o] + if i < |open| then open[i + 1..] else []
  {
    if open != [] && i > 0 {
      PutKeepsPlace(open[1..], o, i - 1);
      assert open[..i] == [open[0]] + open[1..][..i - 1];
    }
  }

  predicate Orphaned(st: State, e: Event)
    requires e.Disconnected?
  {
    var pending := Find(st.open, e.client);
    (e.client, e.address) !in st.cut && (pending.None? || pending.value.address != e.address)
  }

  /** Every session known to be open when records stopped ends there, and its peer is remembered. */
  function AtGap(open: seq<Open>, cut: set<(string, string)>, sessions: seq<Session>, lastSeen: int): State {
    var hit := Filter(HitBy(lastSeen), open);
    State(Filter(MissedBy(lastSeen), open),
          cut + (set o | o in hit :: (o.client, o.address)),
          sessions + Map(EndedAs(Some(lastSeen), Estimated), hit))
  }

  lemma AtGapNext(open: seq<Open>, o: Open, cut: set<(string, string)>, sessions: seq<Session>, lastSeen: int)
    ensures var st := AtGap(open, cut, sessions, lastSeen);
            AtGap(open + [o], cut, sessions, lastSeen)
            == if o.start > lastSeen then st.(open := st.open + [o])
               else State(st.open, st.cut + {(o.client, o.address)},
                           st.sessions + [Ended(o, Some(lastSeen), Estimated)])
  {
    hide Filter;
    FilterConcat(HitBy(lastSeen), open, [o]);
    FilterConcat(MissedBy(lastSeen), open, [o]);
    if o.start > lastSeen {
      FilterNone(HitBy(lastSeen), [o]);
      FilterAll(MissedBy(lastSeen), [o]);
    } else {
      FilterAll(HitBy(lastSeen), [o]);
      FilterNone(MissedBy(lastSeen), [o]);
      MapConcat(EndedAs(Some(lastSeen), Estimated), Filter(HitBy(lastSeen), open), [o]);
    }
  }

  function Step(st: State, e: Event, n: nat): State {
    match e
    case Gap(_, lastSeen) =>
      AtGap(st.open, st.cut, st.sessions, lastSeen)
    case Restart(_) =>
      State([], st.cut, st.sessions + Map(EndedAs(None, Interrupted), st.open))
    case Remark(_) => st
    case Connected(at, client, address, resolved) =>
      var stale := Find(st.open, client);
      State(Put(st.open, Open(client, at, address, resolved, n)),
            st.cut - {(client, address)},
            st.sessions + if stale.Some? then [Ended(stale.value, None, Superseded)] else [])
    case Disconnected(at, client, address) =>
      if (client, address) in st.cut then st
      else
        var pending := Find(st.open, client);
        if pending.Some? && pending.value.address == address then
          st.(open := Without(st.open, pending.value),
              sessions := st.sessions + [Ended(pending.value, Some(at), Logged)])
        else st.(sessions := st.sessions + [Session(client, None, Some(at), address, None, Logged, n)])
  }

  function After(es: seq<Event>, n: nat): State
    requires n <= |es|
  {
    if n == 0 then State([], {}, []) else Step(After(es, n - 1), es[n - 1], n - 1)
  }

  /** Sessions still open at the end are ongoing. */
  function Collected(es: seq<Event>): seq<Session> {
    After(es, |es|).sessions + Map(EndedAs(None, Ongoing), After(es, |es|).open)
  }

  // ---------- the orders ----------

  predicate Sooner(a: Event, b: Event) {
    a.at < b.at || (a.at == b.at && (a.Gap? || !b.Gap?))
  }

  /** A session without a start sorts as the empty string. */
  predicate StartsLater(a: Session, b: Session) {
    b.start.None? || (a.start.Some? && a.start.value >= b.start.value)
  }

  predicate OngoingFirst(a: Session, b: Session) {
    a.ending == Ongoing || b.ending != Ongoing
  }

  /** sort_client_sessions: two stable passes. */
  function Listed(s: seq<Session>): seq<Session> {
    Sort(OngoingFirst, Sort(StartsLater, s))
  }

  function Timeline(logged: seq<Event>, gaps: seq<Event>): seq<Event> {
    Sort(Sooner, logged + gaps)
  }

  /** _build_sessions. */
  method BuildSessions(logged: seq<Event>, gaps: seq<Event>) returns (result: seq<Session>)
    ensures result == Listed(Collected(Timeline(logged, gaps)))
  {
    hide AtGap, Filter, Without, Put, Find, Sort, Map, Timeline;
    var es := Timeline(logged, gaps);
    var open: seq<Open>, cut: set<(string, string)>, sessions: seq<Session> := [], {}, [];
    for n := 0 to |es|
      invariant State(open, cut, sessions) == After(es, n)
    {
      ghost var before := State(open, cut, sessions);
      match es[n] {
        case Gap(_, lastSeen) =>
          open, cut, sessions := CloseBefore(open, cut, sessions, lastSeen);
        case Restart(_) =>
          sessions := CloseAll(open, sessions, Interrupted);
          open := [];
        case Remark(_) =>
        case Connected(at, client, address, resolved) =>
          cut := cut - {(client, address)};
          var stale := Find(open, client);
          if stale.Some? {
            sessions := sessions + [Ended(stale.value, None, Superseded)];
          }
          open := Put(open, Open(client, at, address, resolved, n));
        case Disconnected(at, client, address) =>
          if (client, address) !in cut {
            var pending := Find(open, client);
            if pending.Some? && pending.value.address == address {
              open := Without(open, pending.value);
              sessions := sessions + [Ended(pending.value, Some(at), Logged)];
            } else {
              sessions := sessions + [Session(client, None, Some(at), address, None, Logged, n)];
            }
          }
      }
      assert State(open, cut, sessions) == Step(before, es[n], n);
    }
    sessions := CloseAll(open, sessions, Ongoing);
    return Listed(sessions);
  }

  /** The loop that ends every open session at an unknown time. */
  method CloseAll(open: seq<Open>, sessions: seq<Session>, ending: Ending) returns (sessions': seq<Session>)
    ensures sessions' == sessions + Map(EndedAs(None, ending), open)
  {
    sessions' := sessions;
    for i := 0 to |open|
      invariant sessions' == sessions + Map(EndedAs(None, ending), open[..i])
    {
      assert open[..i + 1] == open[..i] + [open[i]];
      MapConcat(EndedAs(None, ending), open[..i], [open[i]]);
      sessions' := sessions' + [Ended(open[i], None, ending)];
    }
    assert open[..|open|] == open;
  }

  /** The loop over a copy of the open sessions at an observation gap. */
  method CloseBefore(open: seq<Open>, cut: set<(string, string)>, sessions: seq<Session>, lastSeen: int)
    returns (open': seq<Open>, cut': set<(string, string)>, sessions': seq<Session>)
    ensures State(open', cut', sessions') == AtGap(open, cut, sessions, lastSeen)
  {
    hide AtGap;
    open', cut', sessions' := [], cut, sessions;
    assert State(open', cut', sessions') == AtGap([], cut, sessions, lastSeen) by {
      AtGapOfNone(cut, sessions, lastSeen);
    }
    for i := 0 to |open|
      invariant State(open', cut', sessions') == AtGap(open[..i], cut, sessions, lastSeen)
    {
      assert open[..i + 1] == open[..i] + [open[i]];
      AtGapNext(open[..i], open[i], cut, sessions, lastSeen);
      if open[i].start > lastSeen {
        open' := open' + [open[i]];
      } else {
        sessions' := sessions' + [Ended(open[i], Some(lastSeen), Estimated)];
        cut' := cut' + {(open[i].client, open[i].address)};
      }
    }
    assert open[..|open|] == open;
  }

  lemma AtGapOfNone(cut: set<(string, string)>, sessions: seq<Session>, lastSeen: int)
    ensures AtGap([], cut, sessions, lastSeen) == State([], cut, sessions)
  {
  }

  // ---------- durations ----------

  function BisectRight(a: seq<int>, x: int): (r: nat)
    ensures r <= |a| && (r < |a| ==> a[r] > x) && forall i :: 0 <= i < r ==> a[i] <= x
  {
    if a == [] || a[0] > x then 0 else 1 + BisectRight(a[1..], x)
  }

  /** Two units are shown at most: an hour or more without its seconds. */
  datatype Shown = Hours(hours: int, minutes: int) | Minutes(minutes: int, seconds: int) | Seconds(seconds: int)

  function FormatDuration(start: int, end: int): Option<Shown> {
    var seconds := end - start;
    if seconds < 0 then None
    else
      var hours, rem := seconds / 3600, seconds % 3600;
      var minutes, secs := rem / 60, rem % 60;
      Some(if hours != 0 then Hours(hours, minutes) else if minutes != 0 then Minutes(minutes, secs) else Seconds(secs))
  }

  /** The duration shown: known only for a logged end with no clock change since the start. */
  function Duration(s: Session, clockChanges: seq<int>): Option<Shown> {
    if s.start.None? || s.end.None? || s.ending == Estimated then None
    else
      var boundary := BisectRight(clockChanges, s.start.value);
      if boundary < |clockChanges| && clockChanges[boundary] <= s.end.value then None
      else FormatDuration(s.start.value, s.end.value)
  }

  /** The time between start and end, below the hour to the second and from then on to the minute. */
  predicate Tells(shown: Shown, length: int) {
    match shown
    case Seconds(s) => length == s && 0 <= s < 60
    case Minutes(m, s) => length == 60 * m + s && 1 <= m < 60 && 0 <= s < 60
    case Hours(h, m) => 3600 * h + 60 * m <= length < 3600 * h + 60 * (m + 1) && 1 <= h && 0 <= m < 60
  }

  lemma FormatTells(start: int, end: int)
    ensures FormatDuration(start, end).Some? <==> start <= end
    ensures start <= end ==> Tells(FormatDuration(start, end).value, end - start)
  {
    var seconds := end - start;
    assert seconds == 3600 * (seconds / 3600) + seconds % 3600;
    var rem := seconds % 3600;
    assert rem == 60 * (rem / 60) + rem % 60;
  }

  /** Looking at the one change behind the start is enough. */
  lemma DurationKnownIff(s: Session, clockChanges: seq<int>)
    requires forall i, j :: 0 <= i < j < |clockChanges| ==> clockChanges[i] <= clockChanges[j]
    ensures Duration(s, clockChanges).Some?
            <==> s.start.Some? && s.end.Some? && s.start.value <= s.end.value && s.ending != Estimated
                 && forall c :: c in clockChanges ==> !(s.start.value < c <= s.end.value)
    ensures Duration(s, clockChanges).Some? ==>
              Tells(Duration(s, clockChanges).value, s.end.value - s.start.value)
  {
    hide FormatDuration, Tells;
    if s.start.Some? && s.end.Some? { FormatTells(s.start.value, s.end.value); }
    if s.start.Some? && s.end.Some? && s.ending != Estimated {
      var boundary := BisectRight(clockChanges, s.start.value);
      assert boundary < |clockChanges| ==> clockChanges[boundary] in clockChanges;
      if Duration(s, clockChanges).Some? {
        forall c | c in clockChanges
          ensures !(s.start.value < c <= s.end.value)
        {
          var i :| 0 <= i < |clockChanges| && clockChanges[i] == c;
          assert i < boundary || i == boundary || clockChanges[boundary] <= clockChanges[i];
        }
      }
    }
  }
}
