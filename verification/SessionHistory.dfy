/** What the session list says, read off the event history alone. */
module SessionHistory {
  import opened Wrappers
  import opened Sequences
  import opened Sorting
  import opened Sessions

  // ---------- the reference: first the end of a connect, then everything else ----------

  function OpenOf(e: Event, n: nat): Open
    requires e.Connected?
  {
    Open(e.client, e.at, e.address, e.resolved, n)
  }

  /** The events that end a connection. */
  predicate Hit(o: Open, e: Event) {
    match e
    case Gap(_, lastSeen) => o.start <= lastSeen
    case Restart(_) => true
    case Remark(_) => false
    case Connected(_, client, _, _) => o.client == client
    case Disconnected(_, client, address) => o.client == client && o.address == address
  }

  predicate Ends(es: seq<Event>, k: nat, m: nat) {
    k < |es| && m < |es| && es[k].Connected? && Hit(OpenOf(es[k], k), es[m])
  }

  /** The connect with number k still stands after n events. */
  ghost predicate OpenAt(es: seq<Event>, n: nat, k: nat) {
    && k < n <= |es| && es[k].Connected?
    && forall m :: k < m < n ==> !Ends(es, k, m)
  }

  /** The first event behind k that ends it, or n. */
  function FirstEnd(es: seq<Event>, n: nat, k: nat): (m: nat)
    requires k < n <= |es| && es[k].Connected?
    ensures k < m <= n && (m < n ==> Ends(es, k, m))
    ensures forall i :: k < i < m ==> !Ends(es, k, i)
  {
    if n == k + 1 then n
    else
      var m := FirstEnd(es, n - 1, k);
      if m < n - 1 || Ends(es, k, n - 1) then m else n
  }

  function ClosedBy(o: Open, e: Event): Session {
    match e
    case Gap(_, lastSeen) => Ended(o, Some(lastSeen), Estimated)
    case Restart(_) => Ended(o, None, Interrupted)
    case Remark(_) => Ended(o, None, Ongoing)
    case Connected(_, _, _, _) => Ended(o, None, Superseded)
    case Disconnected(at, _, _) => Ended(o, Some(at), Logged)
  }

  /** The session of connect k as the first n events leave it. */
  function Outcome(es: seq<Event>, n: nat, k: nat): Session
    requires k < n <= |es| && es[k].Connected?
  {
    var m := FirstEnd(es, n, k);
    if m == n then Ended(OpenOf(es[k], k), None, Ongoing) else ClosedBy(OpenOf(es[k], k), es[m])
  }

  /** Peer (client, address) lost its connection in gap g, having connected at k, and did not come back since. */
  ghost predicate CutBy(es: seq<Event>, n: nat, client: string, address: string, g: nat, k: nat) {
    && g < n <= |es| && OpenAt(es, g, k) && es[g].Gap? && Ends(es, k, g)
    && es[k].client == client && es[k].address == address
    && forall m :: g < m < n ==> !ComesBack(es[m], client, address)
  }

  predicate ComesBack(e: Event, client: string, address: string) {
    e.Connected? && e.client == client && e.address == address
  }

  ghost predicate CutOff(es: seq<Event>, n: nat, client: string, address: string) {
    exists g: nat, k: nat :: CutBy(es, n, client, address, g, k)
  }

  /** Disconnect i ends no standing connect and is not the late timeout of a peer cut off in a gap. */
  ghost predicate OrphanAt(es: seq<Event>, i: nat) {
    && i < |es| && es[i].Disconnected?
    && !CutOff(es, i, es[i].client, es[i].address)
    && forall k: nat :: OpenAt(es, i, k) ==> !Ends(es, k, i)
  }

  function OrphanSession(e: Event, n: nat): Session
    requires e.Disconnected?
  {
    Session(e.client, None, Some(e.at), e.address, None, Logged, n)
  }

  /** What the list shows for event number k after n events, if anything. */
  ghost predicate Shows(es: seq<Event>, n: nat, s: Session) {
    && s.from < n <= |es|
    && if es[s.from].Connected? then s == Outcome(es, n, s.from)
       else OrphanAt(es, s.from) && s == OrphanSession(es[s.from], s.from)
  }

  // ---------- one more event ----------

  lemma OpenNext(es: seq<Event>, n: nat, k: nat)
    requires n < |es|
    ensures OpenAt(es, n + 1, k) <==> (k == n && es[n].Connected?) || (OpenAt(es, n, k) && !Ends(es, k, n))
  {
  }

  lemma OutcomeNext(es: seq<Event>, n: nat, k: nat)
    requires k < n < |es| && es[k].Connected?
    ensures !OpenAt(es, n, k) ==> Outcome(es, n + 1, k) == Outcome(es, n, k) && !OpenAt(es, n + 1, k)
    ensures OpenAt(es, n, k) && Ends(es, k, n) ==> Outcome(es, n + 1, k) == ClosedBy(OpenOf(es[k], k), es[n])
    ensures OpenAt(es, n, k) == (FirstEnd(es, n, k) == n)
  {
    var m := FirstEnd(es, n, k);
    assert m < n ==> Ends(es, k, m);
  }

  /** Two standing connects belong to different clients. */
  lemma OneEach(es: seq<Event>, n: nat, j: nat, k: nat)
    requires OpenAt(es, n, j) && OpenAt(es, n, k) && es[j].client == es[k].client
    ensures j == k
  {
    if j < k { assert Ends(es, j, k); }
    if k < j { assert Ends(es, k, j); }
  }

  /** A peer that was cut off has no standing connect. */
  lemma CutIsNotOpen(es: seq<Event>, n: nat, j: nat)
    requires OpenAt(es, n, j)
    ensures !CutOff(es, n, es[j].client, es[j].address)
  {
    if CutOff(es, n, es[j].client, es[j].address) {
      var g: nat, k: nat :| CutBy(es, n, es[j].client, es[j].address, g, k);
      if j < g {
        assert OpenAt(es, g, j);
        OneEach(es, g, j, k);
        assert false;
      } else {
        assert false;
      }
    }
  }

  lemma CutNext(es: seq<Event>, n: nat, client: string, address: string)
    requires n < |es|
    ensures CutOff(es, n + 1, client, address)
            <==> !ComesBack(es[n], client, address)
                 && (CutOff(es, n, client, address) || CutNow(es, n, client, address))
  {
    if CutOff(es, n + 1, client, address) {
      var g: nat, k: nat :| CutBy(es, n + 1, client, address, g, k);
      if g < n {
        assert CutBy(es, n, client, address, g, k);
      }
    }
    if !ComesBack(es[n], client, address) {
      if CutOff(es, n, client, address) {
        var g: nat, k: nat :| CutBy(es, n, client, address, g, k);
        assert CutBy(es, n + 1, client, address, g, k);
      }
      if CutNow(es, n, client, address) {
        var k: nat :| OpenAt(es, n, k) && Ends(es, k, n) && es[k].client == client && es[k].address == address;
        assert CutBy(es, n + 1, client, address, n, k);
      }
    }
  }

  ghost predicate CutNow(es: seq<Event>, n: nat, client: string, address: string)
    requires n < |es|
  {
    es[n].Gap?
    && exists k: nat :: OpenAt(es, n, k) && Ends(es, k, n) && es[k].client == client && es[k].address == address
  }

  // ---------- the state of the pass tells the history ----------

  ghost predicate OpenInv(es: seq<Event>, n: nat, open: seq<Open>) {
    && (forall o :: o in open ==> OpenAt(es, n, o.from) && o == OpenOf(es[o.from], o.from))
    && (forall k: nat :: OpenAt(es, n, k) ==> OpenOf(es[k], k) in open)
    && OneOfEach(open)
  }

  ghost predicate OneOfEach(open: seq<Open>) {
    forall i, j :: 0 <= i < j < |open| ==> open[i].client != open[j].client
  }

  ghost predicate CutInv(es: seq<Event>, n: nat, cut: set<(string, string)>) {
    forall client, address :: (client, address) in cut <==> CutOff(es, n, client, address)
  }

  /** A closed session. */
  ghost predicate Settled(es: seq<Event>, n: nat, s: Session) {
    Shows(es, n, s) && !OpenAt(es, n, s.from)
  }

  ghost predicate SessionsInv(es: seq<Event>, n: nat, sessions: seq<Session>) {
    && (forall s :: s in sessions ==> Settled(es, n, s))
    && DifferentEvents(sessions)
    && (forall k: nat :: 0 <= k < n <= |es| && es[k].Connected? && !OpenAt(es, n, k) ==> Outcome(es, n, k) in sessions)
    && (forall k: nat :: 0 <= k < n && OrphanAt(es, k) ==> OrphanSession(es[k], k) in sessions)
  }

  ghost predicate DifferentEvents(sessions: seq<Session>) {
    forall i, j :: 0 <= i < j < |sessions| ==> sessions[i].from != sessions[j].from
  }

  ghost predicate Inv(es: seq<Event>, n: nat, st: State) {
    OpenInv(es, n, st.open) && CutInv(es, n, st.cut) && SessionsInv(es, n, st.sessions)
  }

  // ---------- editing the dictionary ----------

  lemma {:induction false} PutMembers(open: seq<Open>, o: Open)
    requires OneOfEach(open)
    ensures OneOfEach(Put(open, o))
    ensures forall p :: p in Put(open, o) <==> p == o || (p in open && p.client != o.client)
  {
    if open != [] && open[0].client != o.client {
      PutMembers(open[1..], o);
    }
  }

  lemma {:induction false} WithoutMembers(open: seq<Open>, o: Open)
    requires OneOfEach(open) && o in open
    ensures OneOfEach(Without(open, o))
    ensures forall p :: p in Without(open, o) <==> p in open && p != o
  {
    assert forall p :: p in open[1..] ==> p.client != open[0].client;
    if open[0] != o {
      WithoutMembers(open[1..], o);
      assert Without(open, o) == [open[0]] + Without(open[1..], o);
    }
  }

  lemma {:induction false} FilterOneOfEach(keep: Open -> bool, open: seq<Open>)
    requires OneOfEach(open)
    ensures OneOfEach(Filter(keep, open))
  {
    if open != [] {
      FilterOneOfEach(keep, open[1..]);
      assert forall p :: p in open[1..] ==> p.client != open[0].client;
    }
  }

  lemma FindIs(open: seq<Open>, o: Open)
    requires OneOfEach(open) && o in open
    ensures Find(open, o.client) == Some(o)
  {
  }

  // ---------- each kind of event, in one shape ----------

  /** The step from `st` drops exactly the connects that the event ends, adds the new one if it is a connect, and
      appends for each dropped connect its session, plus the orphan if there is one. */
  ghost predicate Shape(es: seq<Event>, n: nat, st: State, st': State, added: seq<Session>)
    requires n < |es|
  {
    && OneOfEach(st'.open)
    && (forall o :: o in st'.open <==>
          (o in st.open && !Hit(o, es[n])) || (es[n].Connected? && o == OpenOf(es[n], n)))
    && st'.sessions == st.sessions + added
    && DifferentEvents(added)
    && (forall s :: s in added ==> AddedBy(es, n, st, s))
    && (forall o :: o in st.open && Hit(o, es[n]) ==> ClosedBy(o, es[n]) in added)
    && (OrphanAt(es, n) ==> OrphanSession(es[n], n) in added)
  }

  ghost predicate AddedBy(es: seq<Event>, n: nat, st: State, s: Session)
    requires n < |es|
  {
    || (OrphanAt(es, n) && s == OrphanSession(es[n], n))
    || exists o :: o in st.open && Hit(o, es[n]) && s == ClosedBy(o, es[n])
  }

  lemma ShapeKeepsOpen(es: seq<Event>, n: nat, st: State, st': State, added: seq<Session>)
    requires n < |es| && OpenInv(es, n, st.open) && Shape(es, n, st, st', added)
    ensures OpenInv(es, n + 1, st'.open)
  {
    forall k: nat
      ensures OpenAt(es, n + 1, k) <==> (k == n && es[n].Connected?) || (OpenAt(es, n, k) && !Ends(es, k, n))
    {
      OpenNext(es, n, k);
    }
    hide OpenAt;
  }

  lemma SettledNext(es: seq<Event>, n: nat, s: Session)
    requires n < |es| && Settled(es, n, s)
    ensures Settled(es, n + 1, s)
  {
    if es[s.from].Connected? {
      OutcomeNext(es, n, s.from);
    }
  }

  lemma AddedSettled(es: seq<Event>, n: nat, st: State, s: Session)
    requires n < |es| && OpenInv(es, n, st.open) && AddedBy(es, n, st, s)
    ensures Settled(es, n + 1, s) && (s.from == n || OpenAt(es, n, s.from))
  {
    if !(OrphanAt(es, n) && s == OrphanSession(es[n], n)) {
      var o :| o in st.open && Hit(o, es[n]) && s == ClosedBy(o, es[n]);
      assert Ends(es, o.from, n);
      OutcomeNext(es, n, o.from);
    }
  }

  lemma ShapeKeepsSessions(es: seq<Event>, n: nat, st: State, st': State, added: seq<Session>)
    requires n < |es| && OpenInv(es, n, st.open) && SessionsInv(es, n, st.sessions) && Shape(es, n, st, st', added)
    ensures SessionsInv(es, n + 1, st'.sessions)
  {
    hide Settled, AddedBy, OrphanAt, FirstEnd;
    forall s | s in st.sessions
      ensures Settled(es, n + 1, s) && s.from < n && !OpenAt(es, n, s.from)
    {
      SettledNext(es, n, s);
      SettledFrom(es, n, s);
    }
    forall s | s in added
      ensures Settled(es, n + 1, s) && (s.from == n || OpenAt(es, n, s.from))
    {
      AddedSettled(es, n, st, s);
    }
    forall k | 0 <= k < n + 1 && es[k].Connected? && !OpenAt(es, n + 1, k)
      ensures Outcome(es, n + 1, k) in st'.sessions
    {
      OpenNext(es, n, k);
      OutcomeNext(es, n, k);
      if OpenAt(es, n, k) {
        assert OpenOf(es[k], k) in st.open;
      }
    }
  }

  lemma SettledFrom(es: seq<Event>, n: nat, s: Session)
    requires Settled(es, n, s)
    ensures s.from < n && !OpenAt(es, n, s.from)
  {
  }

  lemma NoneOpenHit(es: seq<Event>, n: nat, st: State)
    requires n < |es| && es[n].Disconnected? && OpenInv(es, n, st.open) && CutInv(es, n, st.cut)
    requires (es[n].client, es[n].address) in st.cut
    ensures forall o :: o in st.open ==> !Hit(o, es[n])
    ensures !OrphanAt(es, n)
  {
    forall o | o in st.open
      ensures !Hit(o, es[n])
    {
      CutIsNotOpen(es, n, o.from);
    }
  }

  /** The dictionary lookup at a disconnect decides whether it is an orphan. */
  lemma OrphanIs(es: seq<Event>, n: nat, st: State)
    requires n < |es| && es[n].Disconnected? && OpenInv(es, n, st.open) && CutInv(es, n, st.cut)
    ensures OrphanAt(es, n) == Orphaned(st, es[n])
    ensures forall o :: o in st.open && Hit(o, es[n]) ==> Find(st.open, es[n].client) == Some(o)
  {
    forall o | o in st.open && o.client == es[n].client
      ensures Find(st.open, es[n].client) == Some(o)
    {
      FindIs(st.open, o);
    }
    if (es[n].client, es[n].address) !in st.cut {
      assert (forall o :: o in st.open ==> !Hit(o, es[n])) == Orphaned(st, es[n]);
      if forall o :: o in st.open ==> !Hit(o, es[n]) {
        assert forall k: nat :: OpenAt(es, n, k) ==> !Ends(es, k, n) by {
          forall k: nat | OpenAt(es, n, k)
            ensures !Ends(es, k, n)
          {
            assert OpenOf(es[k], k) in st.open;
          }
        }
      } else {
        var o :| o in st.open && Hit(o, es[n]);
        assert OpenAt(es, n, o.from) && Ends(es, o.from, n);
      }
    }
  }

  /** Ending several connects at once: each gets one session. */
  lemma {:induction false} MapCloses(open: seq<Open>, end: Option<int>, ending: Ending)
    requires OneOfEach(open) && forall o, p :: o in open && p in open && o.from == p.from ==> o == p
    ensures var added := Map(EndedAs(end, ending), open);
            DifferentEvents(added) && (forall o :: o in open ==> Ended(o, end, ending) in added)
            && forall s :: s in added ==> exists o :: o in open && s == Ended(o, end, ending)
  {
    var added := Map(EndedAs(end, ending), open);
    forall i | 0 <= i < |open|
      ensures open[i] in open && added[i] == Ended(open[i], end, ending)
    {
    }
  }

  lemma GapShape(es: seq<Event>, n: nat, st: State)
    requires n < |es| && Inv(es, n, st) && es[n].Gap?
    ensures Shape(es, n, st, Step(st, es[n], n),
              Map(EndedAs(Some(es[n].lastSeen), Estimated), Filter(HitBy(es[n].lastSeen), st.open)))
  {
    var lastSeen := es[n].lastSeen;
    var hit := Filter(HitBy(lastSeen), st.open);
    var added := Map(EndedAs(Some(lastSeen), Estimated), hit);
    FilterOneOfEach(HitBy(lastSeen), st.open);
    FilterOneOfEach(MissedBy(lastSeen), st.open);
    MapCloses(hit, Some(lastSeen), Estimated);
    hide Filter, Map, DifferentEvents, OpenAt;
    forall s | s in added
      ensures AddedBy(es, n, st, s)
    {
      var o :| o in hit && s == Ended(o, Some(lastSeen), Estimated);
      assert o in st.open && Hit(o, es[n]);
    }
  }

  lemma NotOrphan(es: seq<Event>, n: nat)
    requires n < |es| && !es[n].Disconnected?
    ensures !OrphanAt(es, n)
  {
  }

  lemma RestartShape(es: seq<Event>, n: nat, st: State)
    requires n < |es| && Inv(es, n, st) && es[n].Restart?
    ensures Shape(es, n, st, Step(st, es[n], n), Map(EndedAs(None, Interrupted), st.open))
  {
    hide Map, DifferentEvents, OpenAt, OrphanAt, CutInv, SessionsInv, Step;
    var added := Map(EndedAs(None, Interrupted), st.open);
    RestartStep(st, es[n], n);
    MapCloses(st.open, None, Interrupted);
    NotOrphan(es, n);
    forall s | s in added
      ensures AddedBy(es, n, st, s)
    {
      var o :| o in st.open && s == Ended(o, None, Interrupted);
      assert Hit(o, es[n]);
    }
  }

  lemma RestartStep(st: State, e: Event, n: nat)
    requires e.Restart?
    ensures Step(st, e, n) == State([], st.cut, st.sessions + Map(EndedAs(None, Interrupted), st.open))
  {
    hide Map;
  }

  lemma ConnectShape(es: seq<Event>, n: nat, st: State)
    requires n < |es| && Inv(es, n, st) && es[n].Connected?
    ensures var stale := Find(st.open, es[n].client);
            Shape(es, n, st, Step(st, es[n], n), if stale.Some? then [Ended(stale.value, None, Superseded)] else [])
  {
    PutMembers(st.open, OpenOf(es[n], n));
    forall o | o in st.open && o.client == es[n].client
      ensures Find(st.open, es[n].client) == Some(o)
    {
      FindIs(st.open, o);
    }
    hide Put, OpenAt;
  }

  lemma DisconnectShape(es: seq<Event>, n: nat, st: State)
    requires n < |es| && Inv(es, n, st) && es[n].Disconnected?
    ensures exists added :: Shape(es, n, st, Step(st, es[n], n), added)
  {
    var e := es[n];
    var st' := Step(st, e, n);
    OrphanIs(es, n, st);
    hide OpenAt, OrphanAt, CutInv, SessionsInv, CutOff, FirstEnd, AtGap, Put, Filter, Map;
    if (e.client, e.address) in st.cut {
      NoneOpenHit(es, n, st);
      assert Shape(es, n, st, st', []);
    } else if Orphaned(st, e) {
      assert Shape(es, n, st, st', [OrphanSession(e, n)]);
    } else {
      MatchedShape(es, n, st, Find(st.open, e.client).value);
    }
  }

  lemma MatchedShape(es: seq<Event>, n: nat, st: State, o: Open)
    requires n < |es| && es[n].Disconnected? && OneOfEach(st.open) && !OrphanAt(es, n)
    requires (es[n].client, es[n].address) !in st.cut
    requires Find(st.open, es[n].client) == Some(o) && o.address == es[n].address
    ensures Shape(es, n, st, Step(st, es[n], n), [Ended(o, Some(es[n].at), Logged)])
  {
    hide OrphanAt, Find, Without;
    WithoutMembers(st.open, o);
    forall p | p in st.open && Hit(p, es[n])
      ensures p == o
    {
      var i :| 0 <= i < |st.open| && st.open[i] == p;
      var j :| 0 <= j < |st.open| && st.open[j] == o;
      assert st.open[i].client == st.open[j].client;
    }
  }

  lemma StepShape(es: seq<Event>, n: nat, st: State)
    requires n < |es| && Inv(es, n, st)
    ensures exists added :: Shape(es, n, st, Step(st, es[n], n), added)
  {
    hide Inv, Step, Shape;
    match es[n] {
      case Gap(_, _) => GapShape(es, n, st);
      case Restart(_) => RestartShape(es, n, st);
      case Remark(_) => RemarkShape(es, n, st);
      case Connected(_, _, _, _) => ConnectShape(es, n, st);
      case Disconnected(_, _, _) => DisconnectShape(es, n, st);
    }
  }

  lemma RemarkShape(es: seq<Event>, n: nat, st: State)
    requires n < |es| && Inv(es, n, st) && es[n].Remark?
    ensures Shape(es, n, st, Step(st, es[n], n), [])
  {
  }

  lemma StepKeepsCut(es: seq<Event>, n: nat, st: State)
    requires n < |es| && OpenInv(es, n, st.open) && CutInv(es, n, st.cut)
    ensures CutInv(es, n + 1, Step(st, es[n], n).cut)
  {
    hide OpenAt, CutOff;
    forall client, address
      ensures (client, address) in Step(st, es[n], n).cut <==> CutOff(es, n + 1, client, address)
    {
      CutNext(es, n, client, address);
      if es[n].Gap? {
        CutNowIs(es, n, st.open, client, address);
      }
    }
  }

  lemma CutNowIs(es: seq<Event>, n: nat, open: seq<Open>, client: string, address: string)
    requires n < |es| && es[n].Gap? && OpenInv(es, n, open)
    ensures CutNow(es, n, client, address)
            <==> exists o :: o in Filter(HitBy(es[n].lastSeen), open) && (o.client, o.address) == (client, address)
  {
    hide OpenAt;
    if CutNow(es, n, client, address) {
      var k: nat :| OpenAt(es, n, k) && Ends(es, k, n) && es[k].client == client && es[k].address == address;
      assert OpenOf(es[k], k) in Filter(HitBy(es[n].lastSeen), open);
    }
    if o :| o in Filter(HitBy(es[n].lastSeen), open) && (o.client, o.address) == (client, address) {
      assert OpenAt(es, n, o.from);
      OpenAtIs(es, n, o.from);
      assert Ends(es, o.from, n);
    }
  }

  lemma OpenAtIs(es: seq<Event>, n: nat, k: nat)
    requires OpenAt(es, n, k)
    ensures k < n <= |es| && es[k].Connected?
  {
  }

  lemma StepKeepsInv(es: seq<Event>, n: nat, st: State)
    requires n < |es| && Inv(es, n, st)
    ensures Inv(es, n + 1, Step(st, es[n], n))
  {
    StepShape(es, n, st);
    StepKeepsCut(es, n, st);
    hide Shape, OpenInv, CutInv, SessionsInv, Step;
    var st' := Step(st, es[n], n);
    var added :| Shape(es, n, st, st', added);
    ShapeKeepsOpen(es, n, st, st', added);
    ShapeKeepsSessions(es, n, st, st', added);
  }

  lemma {:induction false} AfterInv(es: seq<Event>, n: nat)
    requires n <= |es|
    ensures Inv(es, n, After(es, n))
  {
    hide Inv, Step;
    if n == 0 {
      NothingYet(es);
    } else {
      AfterInv(es, n - 1);
      StepKeepsInv(es, n - 1, After(es, n - 1));
    }
  }

  lemma NothingYet(es: seq<Event>)
    ensures Inv(es, 0, State([], {}, []))
  {
  }

  // ---------- the main results ----------

  /** The list is exactly what the history shows: no session but those, one for every connect and one for every orphaned
      disconnect, and never two for the same event. */
  lemma SessionsAreExact(es: seq<Event>)
    ensures forall s :: s in Collected(es) <==> Shows(es, |es|, s)
    ensures DifferentEvents(Collected(es))
  {
    AfterInv(es, |es|);
    var st := After(es, |es|);
    var ongoing := Map(EndedAs(None, Ongoing), st.open);
    OngoingShown(es, st);
    ClosedShown(es, st.sessions);
    hide Map, After, OpenInv, CutInv, SessionsInv, Shows, OpenAt, DifferentEvents;
    assert Collected(es) == st.sessions + ongoing;
    forall s, t | s in st.sessions && t in ongoing
      ensures s.from != t.from
    {
    }
    JoinDifferent(st.sessions, ongoing);
    forall s | Shows(es, |es|, s)
      ensures s in Collected(es)
    {
      ShownIsListed(es, st, s);
    }
  }

  lemma ClosedShown(es: seq<Event>, sessions: seq<Session>)
    requires SessionsInv(es, |es|, sessions)
    ensures DifferentEvents(sessions) && forall s :: s in sessions ==> Shows(es, |es|, s) && !OpenAt(es, |es|, s.from)
  {
    hide Shows, OpenAt, Outcome, OrphanAt;
  }

  lemma JoinDifferent(a: seq<Session>, b: seq<Session>)
    requires DifferentEvents(a) && DifferentEvents(b)
    requires forall s, t :: s in a && t in b ==> s.from != t.from
    ensures DifferentEvents(a + b)
  {
  }

  /** The ongoing sessions are those of the connects that stand. */
  lemma OngoingShown(es: seq<Event>, st: State)
    requires OpenInv(es, |es|, st.open)
    ensures var ongoing := Map(EndedAs(None, Ongoing), st.open);
            && DifferentEvents(ongoing)
            && (forall s :: s in ongoing ==> Shows(es, |es|, s) && OpenAt(es, |es|, s.from))
            && (forall k: nat :: OpenAt(es, |es|, k) ==> Ended(OpenOf(es[k], k), None, Ongoing) in ongoing)
  {
    MapCloses(st.open, None, Ongoing);
    hide OpenAt, Map, DifferentEvents, OrphanAt;
    forall s | s in Map(EndedAs(None, Ongoing), st.open)
      ensures Shows(es, |es|, s) && OpenAt(es, |es|, s.from)
    {
      var o :| o in st.open && s == Ended(o, None, Ongoing);
      StillOpen(es, |es|, o.from);
      OpenAtIs(es, |es|, o.from);
    }
  }

  lemma ShownIsListed(es: seq<Event>, st: State, s: Session)
    requires OpenInv(es, |es|, st.open) && SessionsInv(es, |es|, st.sessions) && Shows(es, |es|, s)
    ensures s in st.sessions || s in Map(EndedAs(None, Ongoing), st.open)
  {
    OngoingShown(es, st);
    hide OpenAt, Map, DifferentEvents, OrphanAt, OpenInv;
    if es[s.from].Connected? && OpenAt(es, |es|, s.from) {
      StillOpen(es, |es|, s.from);
    }
  }

  lemma StillOpen(es: seq<Event>, n: nat, k: nat)
    requires OpenAt(es, n, k)
    ensures Outcome(es, n, k) == Ended(OpenOf(es[k], k), None, Ongoing)
  {
    assert FirstEnd(es, n, k) == n;
  }

  // ---------- the built list ----------

  function Built(logged: seq<Event>, gaps: seq<Event>): seq<Session> {
    Listed(Collected(Timeline(logged, gaps)))
  }

  function Apart(): (Session, Session) -> bool {
    (a: Session, b: Session) => a.from != b.from
  }

  lemma OrdersAreTotal()
    ensures TotalPreorder(StartsLater) && TotalPreorder(OngoingFirst) && TotalPreorder(Sooner)
  {
  }

  /** Sorting for display neither loses nor invents a session. */
  lemma BuiltIsExact(logged: seq<Event>, gaps: seq<Event>)
    ensures var es := Timeline(logged, gaps);
            && DifferentEvents(Built(logged, gaps))
            && forall s :: s in Built(logged, gaps) <==> Shows(es, |es|, s)
  {
    var es := Timeline(logged, gaps);
    hide Shows, Collected, Sort, Timeline;
    SessionsAreExact(es);
    var all := Collected(es);
    assert Pairwise(Apart(), all);
    SortPairwise(StartsLater, Apart(), all);
    SortPairwise(OngoingFirst, Apart(), Sort(StartsLater, all));
    SameMembers(Listed(all), all);
  }

  ghost predicate ShownOnce(list: seq<Session>, s: Session) {
    exists i :: 0 <= i < |list| && list[i] == s && forall j :: 0 <= j < |list| && list[j].from == s.from ==> j == i
  }

  /** Conservation of connects: each connect has exactly one session, with its client, time and address; each disconnect
      that ends no standing connect and is not a late timeout has exactly one session without a start; nothing else is
      listed. */
  lemma ConnectsAreConserved(logged: seq<Event>, gaps: seq<Event>)
    ensures var es := Timeline(logged, gaps);
            var list := Built(logged, gaps);
            && (forall k: nat :: k < |es| && es[k].Connected? ==> ShownOnce(list, Outcome(es, |es|, k)))
            && (forall k: nat :: k < |es| && es[k].Disconnected? && OrphanAt(es, k) ==>
                  ShownOnce(list, OrphanSession(es[k], k)))
            && (forall s :: s in list && s.start.Some? ==>
                  s.from < |es| && es[s.from].Connected?
                  && (s.client, s.start.value, s.address) == (es[s.from].client, es[s.from].at, es[s.from].address))
            && (forall s :: s in list && s.start.None? ==>
                  s.from < |es| && es[s.from].Disconnected? && OrphanAt(es, s.from)
                  && s == OrphanSession(es[s.from], s.from))
  {
    var es := Timeline(logged, gaps);
    var list := Built(logged, gaps);
    BuiltIsExact(logged, gaps);
    hide Timeline, Built, OpenAt, CutOff;
    forall k: nat | k < |es| && es[k].Connected?
      ensures ShownOnce(list, Outcome(es, |es|, k))
    {
      OnceIfListed(list, Outcome(es, |es|, k));
    }
    forall k: nat | k < |es| && es[k].Disconnected? && OrphanAt(es, k)
      ensures ShownOnce(list, OrphanSession(es[k], k))
    {
      OnceIfListed(list, OrphanSession(es[k], k));
    }
  }

  lemma OnceIfListed(list: seq<Session>, s: Session)
    requires DifferentEvents(list) && s in list
    ensures ShownOnce(list, s)
  {
    var i :| 0 <= i < |list| && list[i] == s;
    assert forall j :: 0 <= j < |list| && list[j].from == s.from ==> j == i;
  }

  /** An ongoing session stems from its client's last connect, so a client has at most one. */
  lemma OngoingIsTheLastConnect(logged: seq<Event>, gaps: seq<Event>, s: Session)
    requires s in Built(logged, gaps) && s.ending == Ongoing
    ensures var es := Timeline(logged, gaps);
            && s.from < |es| && es[s.from].Connected? && es[s.from].client == s.client
            && forall m: nat :: s.from < m < |es| && es[m].Connected? ==> es[m].client != s.client
    ensures forall t :: t in Built(logged, gaps) && t.ending == Ongoing && t.client == s.client ==> t == s
  {
    BuiltIsExact(logged, gaps);
    var es := Timeline(logged, gaps);
    hide Timeline, Built;
    OngoingStands(es, s);
    forall t | t in Built(logged, gaps) && t.ending == Ongoing && t.client == s.client
      ensures t == s
    {
      OngoingStands(es, t);
      OneEach(es, |es|, s.from, t.from);
    }
    forall m: nat | s.from < m < |es| && es[m].Connected?
      ensures es[m].client != s.client
    {
      assert !Ends(es, s.from, m);
    }
  }

  lemma OngoingStands(es: seq<Event>, s: Session)
    requires Shows(es, |es|, s) && s.ending == Ongoing
    ensures OpenAt(es, |es|, s.from) && es[s.from].client == s.client
  {
    assert FirstEnd(es, |es|, s.from) == |es|;
  }

  // ---------- one client's sessions do not overlap ----------

  ghost predicate GapsAreProper(gaps: seq<Event>) {
    forall g :: g in gaps ==> g.Gap? && g.lastSeen < g.at
  }

  ghost predicate NoGaps(logged: seq<Event>) {
    forall e :: e in logged ==> !e.Gap?
  }

  /** Either the session has no length of its own, or it ends by the time `t` begins. */
  predicate EndsBy(s: Session, at: int) {
    s.ending != Ongoing && (s.end.Some? ==> s.end.value <= at)
  }

  lemma TimelineFacts(logged: seq<Event>, gaps: seq<Event>)
    requires NoGaps(logged) && GapsAreProper(gaps)
    ensures var es := Timeline(logged, gaps);
            && (forall i, j :: 0 <= i < j < |es| ==> es[i].at <= es[j].at)
            && (forall i :: 0 <= i < |es| && es[i].Gap? ==> es[i].lastSeen < es[i].at)
  {
    TimelineOrder(logged, gaps);
    var es := Timeline(logged, gaps);
    hide Timeline;
    forall i | 0 <= i < |es| && es[i].Gap?
      ensures es[i].lastSeen < es[i].at
    {
      assert es[i] in multiset(es);
      assert es[i] in logged || es[i] in gaps;
    }
  }

  /** Start before end, and an earlier session of a client is over when a later one starts; an ongoing one is the
      last. */
  lemma ClientSessionsAreDisjoint(logged: seq<Event>, gaps: seq<Event>, s: Session)
    requires NoGaps(logged) && GapsAreProper(gaps)
    requires s in Built(logged, gaps) && s.start.Some?
    ensures s.end.Some? ==> s.start.value <= s.end.value
    ensures forall t :: t in Built(logged, gaps) && t.start.Some? && t.client == s.client && t != s ==>
              (s.start.value <= t.start.value && EndsBy(s, t.start.value))
              || (t.start.value <= s.start.value && EndsBy(t, s.start.value))
  {
    TimelineFacts(logged, gaps);
    BuiltIsExact(logged, gaps);
    var es := Timeline(logged, gaps);
    hide Timeline, Built, OrphanAt;
    EndIsLater(es, s);
    forall t | t in Built(logged, gaps) && t.start.Some? && t.client == s.client && t != s
      ensures (s.start.value <= t.start.value && EndsBy(s, t.start.value))
              || (t.start.value <= s.start.value && EndsBy(t, s.start.value))
    {
      if s.from < t.from { EarlierIsOver(es, s, t); }
      if t.from < s.from { EarlierIsOver(es, t, s); }
    }
  }

  ghost predicate InTime(es: seq<Event>) {
    && (forall i, j :: 0 <= i < j < |es| ==> es[i].at <= es[j].at)
    && (forall i :: 0 <= i < |es| && es[i].Gap? ==> es[i].lastSeen < es[i].at)
  }

  lemma EndIsLater(es: seq<Event>, s: Session)
    requires InTime(es) && Shows(es, |es|, s) && s.start.Some?
    ensures s.end.Some? ==> s.start.value <= s.end.value
  {
    var m := FirstEnd(es, |es|, s.from);
    assert m < |es| ==> Ends(es, s.from, m);
  }

  lemma EarlierIsOver(es: seq<Event>, s: Session, t: Session)
    requires InTime(es) && Shows(es, |es|, s) && Shows(es, |es|, t)
    requires s.start.Some? && t.start.Some? && s.client == t.client && s.from < t.from
    ensures s.start.value <= t.start.value && EndsBy(s, t.start.value)
  {
    var m := FirstEnd(es, |es|, s.from);
    assert Ends(es, s.from, t.from);
    assert m <= t.from;
    assert Ends(es, s.from, m);
  }

  // ---------- the order of the list ----------

  /** Ongoing sessions come first, within each group the latest start first, and sessions that tie keep their order. */
  lemma ListIsOrdered(sessions: seq<Session>, tied: Session -> bool)
    requires forall a, b :: tied(a) && tied(b) ==> a.start == b.start && (a.ending == Ongoing) == (b.ending == Ongoing)
    ensures forall i, j :: 0 <= i < j < |Listed(sessions)| ==>
              ListedBefore(Listed(sessions)[i], Listed(sessions)[j])
    ensures multiset(Listed(sessions)) == multiset(sessions)
    ensures Filter(tied, Listed(sessions)) == Filter(tied, sessions)
  {
    OrdersAreTotal();
    SortSorts(StartsLater, sessions);
    TwoPasses(OngoingFirst, StartsLater, Sort(StartsLater, sessions));
    SortStable(StartsLater, tied, sessions);
    SortStable(OngoingFirst, tied, Sort(StartsLater, sessions));
    forall i, j | 0 <= i < j < |Listed(sessions)|
      ensures ListedBefore(Listed(sessions)[i], Listed(sessions)[j])
    {
      assert InOrder(OngoingFirst, StartsLater, Listed(sessions)[i], Listed(sessions)[j]);
    }
  }

  /** Later starts first, and behind every start the sessions without one; an ongoing session before any that ended. */
  predicate ListedBefore(a: Session, b: Session) {
    if a.ending == Ongoing && b.ending != Ongoing then true
    else
      && (b.ending == Ongoing ==> a.ending == Ongoing)
      && (b.start.Some? ==> a.start.Some? && a.start.value >= b.start.value)
  }

  // ---------- the events in one line ----------

  /** Nothing is lost between log and gaps; time does not go back; and at one moment a gap comes before what the log
      says, which otherwise keeps its order. */
  lemma TimelineIs(logged: seq<Event>, gaps: seq<Event>, tied: Event -> bool)
    requires forall a, b :: tied(a) && tied(b) ==> a.at == b.at && a.Gap? == b.Gap?
    ensures var es := Timeline(logged, gaps);
            && multiset(es) == multiset(logged + gaps)
            && (forall i, j :: 0 <= i < j < |es| ==> es[i].at <= es[j].at)
            && (forall i, j :: 0 <= i < j < |es| && es[i].at == es[j].at && es[j].Gap? ==> es[i].Gap?)
            && Filter(tied, es) == Filter(tied, logged + gaps)
  {
    hide Sort, Filter;
    OrdersAreTotal();
    TimelineOrder(logged, gaps);
    SortStable(Sooner, tied, logged + gaps);
  }

  lemma TimelineOrder(logged: seq<Event>, gaps: seq<Event>)
    ensures var es := Timeline(logged, gaps);
            && multiset(es) == multiset(logged + gaps)
            && (forall i, j :: 0 <= i < j < |es| ==> es[i].at <= es[j].at)
            && (forall i, j :: 0 <= i < j < |es| && es[i].at == es[j].at && es[j].Gap? ==> es[i].Gap?)
  {
    hide Sort;
    OrdersAreTotal();
    SortSorts(Sooner, logged + gaps);
    var es := Timeline(logged, gaps);
    forall i, j | 0 <= i < j < |es|
      ensures es[i].at <= es[j].at && (es[i].at == es[j].at && es[j].Gap? ==> es[i].Gap?)
    {
      assert Sooner(es[i], es[j]);
    }
  }

  // ---------- what a session tells ----------

  /** Each session repeats its own event, and its ending names what ended it: a disconnect of the same peer, an
      observation gap, a restart or the client's next connect, each behind it; an ongoing one was ended by none. */
  lemma SessionTells(es: seq<Event>, s: Session)
    requires s in Collected(es)
    ensures s.from < |es|
    ensures if s.start.None? then
              s.end.Some? && es[s.from] == Disconnected(s.end.value, s.client, s.address)
              && s.resolved.None? && s.ending == Logged
            else es[s.from] == Connected(s.start.value, s.client, s.address, s.resolved)
    ensures s.start.Some? ==> EndedRightly(es, s)
  {
    hide Collected, EndedRightly, CutOff, OpenAt;
    SessionsAreExact(es);
    assert Shows(es, |es|, s);
    if es[s.from].Connected? { OutcomeTells(es, s.from); }
  }

  lemma OutcomeTells(es: seq<Event>, k: nat)
    requires k < |es| && es[k].Connected?
    ensures var s := Outcome(es, |es|, k);
            s.from == k && s.start == Some(es[k].at) && s.client == es[k].client && s.address == es[k].address
            && s.resolved == es[k].resolved && EndedRightly(es, s)
  {
    var s := Outcome(es, |es|, k);
    var m := FirstEnd(es, |es|, k);
    if m < |es| {
      assert Ends(es, k, m);
    } else {
      forall i | k < i < |es|
        ensures !Hit(OpenOf(es[k], k), es[i])
      {
        assert !Ends(es, k, i);
      }
    }
  }

  ghost predicate EndedRightly(es: seq<Event>, s: Session)
    requires s.from < |es| && s.start.Some?
  {
    match s.ending
    case Logged =>
      s.end.Some? && exists m :: s.from < m < |es| && es[m] == Disconnected(s.end.value, s.client, s.address)
    case Estimated => exists m :: s.from < m < |es| && es[m].Gap? && s.end == Some(es[m].lastSeen)
                                  && es[m].lastSeen >= s.start.value
    case Interrupted => s.end.None? && exists m :: s.from < m < |es| && es[m].Restart?
    case Superseded => s.end.None? && exists m :: s.from < m < |es| && es[m].Connected? && es[m].client == s.client
    case Ongoing => s.end.None? && forall m :: s.from < m < |es| ==>
                                     match es[m]
                                     case Gap(_, lastSeen) => lastSeen < s.start.value
                                     case Restart(_) => false
                                     case Remark(_) => true
                                     case Connected(_, client, _, _) => client != s.client
                                     case Disconnected(_, client, address) =>
                                       client != s.client || address != s.address
  }

  /** In the built list a duration is shown for exactly the sessions with a logged end and no clock change within. */
  lemma DurationsAreLogged(logged: seq<Event>, gaps: seq<Event>, s: Session, clockChanges: seq<int>)
    requires NoGaps(logged) && GapsAreProper(gaps) && s in Built(logged, gaps)
    requires forall i, j :: 0 <= i < j < |clockChanges| ==> clockChanges[i] <= clockChanges[j]
    ensures Duration(s, clockChanges).Some?
            <==> s.start.Some? && s.ending == Logged && s.end.Some?
                 && forall c :: c in clockChanges ==> !(s.start.value < c <= s.end.value)
    ensures Duration(s, clockChanges).Some? && s.end.Some? && s.start.Some? ==>
              Tells(Duration(s, clockChanges).value, s.end.value - s.start.value)
  {
    DurationKnownIff(s, clockChanges);
    BuiltIsExact(logged, gaps);
    var es := Timeline(logged, gaps);
    hide Timeline, Built, Duration, Tells, OrphanAt;
    SessionsAreExact(es);
    SessionTells(es, s);
    if s.start.Some? {
      ClientSessionsAreDisjoint(logged, gaps, s);
    }
  }
}
