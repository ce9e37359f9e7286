/** The activity chart: peak number of clients online in each bucket, by a sweep over session starts and ends. */
module PeakLoad {
  import opened Sequences
  import opened Sorting
  import opened Ranges
  import opened Sessions
  import opened SessionHistory

  // ---------- the pointwise definition ----------

  /** A session whose end is unknown has no length. */
  function EndOf(s: Session, end: int, now: int): int
    requires s.start.Some?
  {
    if s.ending == Ongoing then Min(end, now)
    else if s.end.Some? then s.end.value
    else s.start.value
  }

  /** The session covers instant t; its last instant is the one before its end. */
  function Online(end: int, now: int, t: int): Session -> bool {
    (s: Session) => s.start.Some? && s.start.value <= t < EndOf(s, end, now)
  }

  function Load(sessions: seq<Session>, end: int, now: int, t: int): nat {
    |Filter(Online(end, now, t), sessions)|
  }

  /** The greatest load among the instants from..to. */
  ghost predicate IsPeak(sessions: seq<Session>, end: int, now: int, from: int, to: int, peak: int) {
    && (forall t :: from <= t < to ==> Load(sessions, end, now, t) <= peak)
    && exists t :: from <= t < to && Load(sessions, end, now, t) == peak
  }

  // ---------- clipped intervals and their edges ----------

  datatype Edge = Edge(at: int, delta: int)

  function ClipOne(lo: int, hi: int, from: int, to: int): seq<Span> {
    if Max(lo, from) < Min(hi, to) then [Span(Max(lo, from), Min(hi, to))] else []
  }

  /** The sessions that have a start, cut to from..to. */
  function Clipped(sessions: seq<Session>, from: int, end: int, now: int): seq<Span> {
    if sessions == [] then []
    else
      var s := sessions[|sessions| - 1];
      Clipped(sessions[..|sessions| - 1], from, end, now)
      + if s.start.Some? then ClipOne(s.start.value, EndOf(s, end, now), from, end) else []
  }

  function Edges(spans: seq<Span>, from: int, to: int): seq<Edge> {
    if spans == [] then []
    else
      Edges(spans[..|spans| - 1], from, to) + EdgesOf(ClipOne(spans[|spans| - 1].lo, spans[|spans| - 1].hi, from, to))
  }

  function EdgesOf(one: seq<Span>): seq<Edge>
    requires |one| <= 1
  {
    if one == [] then [] else [Edge(one[0].lo, 1), Edge(one[0].hi, -1)]
  }

  /** A departure comes before an arrival at the same instant. */
  predicate EdgeOrder(a: Edge, b: Edge) {
    a.at < b.at || (a.at == b.at && a.delta <= b.delta)
  }

  function Total(weight: Edge -> int, es: seq<Edge>): int {
    if es == [] then 0 else Total(weight, es[..|es| - 1]) + weight(es[|es| - 1])
  }

  function Delta(): Edge -> int {
    (e: Edge) => e.delta
  }

  function UpTo(t: int): Edge -> int {
    (e: Edge) => if e.at <= t then e.delta else 0
  }

  /** Departures up to t, arrivals before it. */
  function JustBefore(t: int): Edge -> int {
    (e: Edge) => if e.at < t || (e.at == t && e.delta < 0) then e.delta else 0
  }

  // ---------- the sweep ----------

  /** peak_concurrency_by_bucket. */
  method PeakConcurrency(sessions: seq<Session>, start: int, end: int, step: int, now: int) returns (peaks: seq<int>)
    requires step > 0
    ensures |peaks| == Max(0, (end - start) / step)
    ensures forall i :: 0 <= i < |peaks| ==>
              IsPeak(sessions, end, now, start + i * step, start + i * step + step, peaks[i])
  {
    var count := Max(0, (end - start) / step);
    peaks := seq(count, _ => 0);
    var spans := Intervals(sessions, start, end, now);
    for i := 0 to count
      invariant |peaks| == count
      invariant forall k :: 0 <= k < i ==>
                  IsPeak(sessions, end, now, start + k * step, start + k * step + step, peaks[k])
    {
      var peak := BucketPeak(spans, start + i * step, start + i * step + step);
      BucketInside(start, end, step, i);
      PeakOfSessions(sessions, start, end, now, start + i * step, start + i * step + step, peak);
      peaks := peaks[i := peak];
    }
  }

  lemma BucketInside(start: int, end: int, step: int, i: int)
    requires step > 0 && 0 <= i < (end - start) / step
    ensures start <= start + i * step && start + i * step + step <= end
  {
    var n := (end - start) / step;
    assert (i + 1) * step <= n * step;
  }

  method Intervals(sessions: seq<Session>, start: int, end: int, now: int) returns (spans: seq<Span>)
    ensures spans == Clipped(sessions, start, end, now)
  {
    spans := [];
    for n := 0 to |sessions|
      invariant spans == Clipped(sessions[..n], start, end, now)
    {
      var s := sessions[n];
      assert sessions[..n + 1][..n] == sessions[..n];
      if s.start.Some? {
        var lo, hi := Max(s.start.value, start), Min(EndOf(s, end, now), end);
        if lo < hi {
          spans := spans + [Span(lo, hi)];
        }
      }
    }
    assert sessions[..|sessions|] == sessions;
  }

  /** One bucket: collect the edges, sort them, keep a running count and its maximum. */
  method BucketPeak(spans: seq<Span>, from: int, to: int) returns (peak: int)
    requires from < to
    ensures (forall t :: from <= t < to ==> CountAt(spans, t) <= peak)
    ensures exists t :: from <= t < to && CountAt(spans, t) == peak
  {
    var edges := CollectEdges(spans, from, to);
    hide Sorted, Sort, Edges, CountAt;
    ghost var top;
    var es := Sort(EdgeOrder, edges);
    peak, top := Sweep(es);
    assert es == Sorted(spans, from, to) by { SortedIs(spans, from, to); }
    ghost var t := CountReaches(spans, from, to, top);
    SortedFacts(spans, from, to);
    forall u | from <= u < to
      ensures CountAt(spans, u) <= peak
    {
      ghost var j := PrefixUpTo(es, u);
    }
    assert CountAt(spans, t) == peak;
  }

  method CollectEdges(spans: seq<Span>, from: int, to: int) returns (edges: seq<Edge>)
    ensures edges == Edges(spans, from, to)
  {
    edges := [];
    for n := 0 to |spans|
      invariant edges == Edges(spans[..n], from, to)
    {
      assert spans[..n + 1][..n] == spans[..n];
      var lo, hi := Max(spans[n].lo, from), Min(spans[n].hi, to);
      if lo < hi {
        edges := edges + [Edge(lo, 1), Edge(hi, -1)];
      }
    }
    assert spans[..|spans|] == spans;
  }

  /** Running count and peak over the sorted edges. */
  method Sweep(es: seq<Edge>) returns (peak: int, ghost top: nat)
    ensures top <= |es| && peak == Total(Delta(), es[..top])
    ensures forall i :: 0 <= i <= |es| ==> Total(Delta(), es[..i]) <= peak
  {
    var running := 0;
    peak, top := 0, 0;
    for j := 0 to |es|
      invariant running == Total(Delta(), es[..j])
      invariant top <= j && peak == Total(Delta(), es[..top])
      invariant forall i :: 0 <= i <= j ==> Total(Delta(), es[..i]) <= peak
    {
      assert es[..j + 1][..j] == es[..j];
      running := running + es[j].delta;
      if running > peak {
        peak, top := running, j + 1;
      }
    }
  }

  // ---------- why the sweep is right ----------

  function CountAt(spans: seq<Span>, t: int): nat {
    if spans == [] then 0
    else CountAt(spans[..|spans| - 1], t) + if spans[|spans| - 1].lo <= t < spans[|spans| - 1].hi then 1 else 0
  }

  lemma {:induction false} TotalConcat(weight: Edge -> int, a: seq<Edge>, b: seq<Edge>)
    ensures Total(weight, a + b) == Total(weight, a) + Total(weight, b)
  {
    if b == [] {
      assert a + b == a;
    } else {
      assert (a + b)[..|a + b| - 1] == a + b[..|b| - 1];
      TotalConcat(weight, a, b[..|b| - 1]);
    }
  }

  lemma {:induction false} TotalPlaced(weight: Edge -> int, es: seq<Edge>, e: Edge)
    ensures Total(weight, Placed(EdgeOrder, es, e)) == Total(weight, es) + weight(e)
  {
    assert Total(weight, [e]) == weight(e) by { assert [e][..0] == []; }
    if es == [] {
    } else if EdgeOrder(es[0], e) {
      TotalPlaced(weight, es[1..], e);
      TotalConcat(weight, [es[0]], Placed(EdgeOrder, es[1..], e));
      TotalConcat(weight, [es[0]], es[1..]);
      assert es == [es[0]] + es[1..];
    } else {
      TotalConcat(weight, [e], es);
    }
  }

  lemma {:induction false} TotalSorted(weight: Edge -> int, es: seq<Edge>)
    ensures Total(weight, Sort(EdgeOrder, es)) == Total(weight, es)
  {
    if es != [] {
      TotalSorted(weight, es[..|es| - 1]);
      TotalPlaced(weight, Sort(EdgeOrder, es[..|es| - 1]), es[|es| - 1]);
    }
  }

  /** Within the bucket, arrivals minus departures up to t is the number of intervals that contain t. */
  lemma {:induction false} EdgesCount(spans: seq<Span>, from: int, to: int, t: int)
    requires from <= t < to
    ensures Total(UpTo(t), Edges(spans, from, to)) == CountAt(spans, t)
  {
    if spans != [] {
      var front, last := spans[..|spans| - 1], spans[|spans| - 1];
      EdgesCount(front, from, to, t);
      var one := EdgesOf(ClipOne(last.lo, last.hi, from, to));
      TotalConcat(UpTo(t), Edges(front, from, to), one);
      TotalOfOne(UpTo(t), ClipOne(last.lo, last.hi, from, to));
    }
  }

  lemma TotalOfOne(weight: Edge -> int, one: seq<Span>)
    requires |one| <= 1
    ensures Total(weight, EdgesOf(one))
            == if one == [] then 0 else weight(Edge(one[0].lo, 1)) + weight(Edge(one[0].hi, -1))
  {
    if one != [] {
      var es := EdgesOf(one);
      assert es[..1] == [Edge(one[0].lo, 1)] && es[..1][..0] == [];
      assert Total(weight, es) == Total(weight, es[..1]) + weight(es[1]);
      assert Total(weight, es[..1]) == Total(weight, []) + weight(es[0]);
    }
  }

  lemma {:induction false} EdgesAreInside(spans: seq<Span>, from: int, to: int)
    ensures forall e :: e in Edges(spans, from, to) ==>
              (e.delta == 1 && from <= e.at < to) || (e.delta == -1 && from < e.at <= to)
  {
    if spans != [] {
      EdgesAreInside(spans[..|spans| - 1], from, to);
    }
  }

  lemma SortedEdges(spans: seq<Span>, from: int, to: int, es: seq<Edge>)
    requires es == Sort(EdgeOrder, Edges(spans, from, to))
    ensures IsSorted(EdgeOrder, es)
    ensures forall e :: e in es ==> (e.delta == 1 && from <= e.at < to) || (e.delta == -1 && from < e.at <= to)
  {
    SortSorts(EdgeOrder, Edges(spans, from, to));
    EdgesAreInside(spans, from, to);
  }

  /** A prefix's running count against a weight of the whole list. */
  lemma {:induction false} PrefixAtMost(weight: Edge -> int, es: seq<Edge>, j: nat)
    requires j <= |es|
    requires forall i :: 0 <= i < j ==> es[i].delta <= weight(es[i])
    requires forall i :: j <= i < |es| ==> 0 <= weight(es[i])
    ensures Total(Delta(), es[..j]) <= Total(weight, es)
  {
    if es != [] {
      var front := es[..|es| - 1];
      assert j <= |front| ==> front[..j] == es[..j];
      if j == |es| {
        assert es[..j] == es && front[..j - 1] == front;
        PrefixAtMost(weight, front, j - 1);
      } else {
        PrefixAtMost(weight, front, j);
      }
    }
  }

  lemma {:induction false} PrefixAtLeast(weight: Edge -> int, es: seq<Edge>, j: nat)
    requires j <= |es|
    requires forall i :: 0 <= i < j ==> es[i].delta >= weight(es[i])
    requires forall i :: j <= i < |es| ==> 0 >= weight(es[i])
    ensures Total(Delta(), es[..j]) >= Total(weight, es)
  {
    if es != [] {
      var front := es[..|es| - 1];
      assert j <= |front| ==> front[..j] == es[..j];
      if j == |es| {
        assert es[..j] == es && front[..j - 1] == front;
        PrefixAtLeast(weight, front, j - 1);
      } else {
        PrefixAtLeast(weight, front, j);
      }
    }
  }

  /** Edges in order, one up or one down each. */
  ghost predicate Swept(es: seq<Edge>) {
    IsSorted(EdgeOrder, es) && forall i :: 0 <= i < |es| ==> es[i].delta == 1 || es[i].delta == -1
  }

  function Sorted(spans: seq<Span>, from: int, to: int): seq<Edge> {
    Sort(EdgeOrder, Edges(spans, from, to))
  }

  lemma SortedIs(spans: seq<Span>, from: int, to: int)
    ensures Sorted(spans, from, to) == Sort(EdgeOrder, Edges(spans, from, to))
  {
  }

  lemma SortedFacts(spans: seq<Span>, from: int, to: int)
    ensures Swept(Sorted(spans, from, to))
    ensures forall i :: 0 <= i < |Sorted(spans, from, to)| && Sorted(spans, from, to)[i].delta == 1 ==>
              from <= Sorted(spans, from, to)[i].at < to
    ensures forall t :: from <= t < to ==> Total(UpTo(t), Sorted(spans, from, to)) == CountAt(spans, t)
  {
    var es := Sorted(spans, from, to);
    SortedEdges(spans, from, to, es);
    forall t | from <= t < to
      ensures Total(UpTo(t), es) == CountAt(spans, t)
    {
      EdgesCount(spans, from, to, t);
      TotalSorted(UpTo(t), Edges(spans, from, to));
    }
    forall i | 0 <= i < |es|
      ensures (es[i].delta == 1 && from <= es[i].at < to) || es[i].delta == -1
    {
      assert es[i] in es;
    }
  }

  /** The edges up to t form a prefix. */
  lemma PrefixUpTo(es: seq<Edge>, t: int) returns (j: nat)
    requires Swept(es)
    ensures j <= |es| && Total(Delta(), es[..j]) == Total(UpTo(t), es)
  {
    j := 0;
    while j < |es| && es[j].at <= t
      invariant j <= |es| && forall i :: 0 <= i < j ==> es[i].at <= t
    {
      j := j + 1;
    }
    assert forall i :: j < i < |es| ==> EdgeOrder(es[j], es[i]);
    PrefixAtMost(UpTo(t), es, j);
    PrefixAtLeast(UpTo(t), es, j);
  }

  /** Behind an arrival at t only more arrivals at t can follow. */
  lemma ArrivalAtMost(es: seq<Edge>, j: nat)
    requires Swept(es) && 0 < j <= |es| && es[j - 1].delta == 1
    ensures Total(Delta(), es[..j]) <= Total(UpTo(es[j - 1].at), es)
  {
    assert forall i :: 0 <= i < j - 1 ==> EdgeOrder(es[i], es[j - 1]);
    assert forall i :: j <= i < |es| ==> EdgeOrder(es[j - 1], es[i]);
    PrefixAtMost(UpTo(es[j - 1].at), es, j);
  }

  /** Ahead of a departure at t stand only earlier edges and departures at t. */
  lemma DepartureAtLeast(es: seq<Edge>, j: nat)
    requires Swept(es) && 0 < j <= |es|
    ensures Total(Delta(), es[..j]) >= Total(JustBefore(es[j - 1].at), es)
  {
    assert forall i :: 0 <= i < j - 1 ==> EdgeOrder(es[i], es[j - 1]);
    assert forall i :: j <= i < |es| ==> EdgeOrder(es[j - 1], es[i]);
    PrefixAtLeast(JustBefore(es[j - 1].at), es, j);
  }

  /** Every running count is at most the count at some instant of the bucket. */
  lemma {:induction false} CountReaches(spans: seq<Span>, from: int, to: int, j: nat) returns (t: int)
    requires from < to && j <= |Sorted(spans, from, to)|
    ensures from <= t < to && Total(Delta(), Sorted(spans, from, to)[..j]) <= CountAt(spans, t)
  {
    var es := Sorted(spans, from, to);
    SortedFacts(spans, from, to);
    hide Sorted, CountAt;
    if j == 0 {
      t := from;
    } else if es[j - 1].delta == -1 {
      t := CountReaches(spans, from, to, j - 1);
      assert es[..j][..j - 1] == es[..j - 1];
    } else {
      t := es[j - 1].at;
      ArrivalAtMost(es, j);
    }
  }

  /** The running count never drops below zero. */
  lemma RunningNeverNegative(spans: seq<Span>, from: int, to: int, j: nat)
    requires j <= |Sorted(spans, from, to)|
    ensures Total(Delta(), Sorted(spans, from, to)[..j]) >= 0
  {
    var es := Sorted(spans, from, to);
    SortedFacts(spans, from, to);
    if j > 0 {
      var t := es[j - 1].at;
      JustBeforeCounts(spans, from, to, t);
      TotalSorted(JustBefore(t), Edges(spans, from, to));
      DepartureAtLeast(es, j);
    }
  }

  lemma {:induction false} JustBeforeCounts(spans: seq<Span>, from: int, to: int, t: int)
    ensures Total(JustBefore(t), Edges(spans, from, to)) >= 0
  {
    if spans != [] {
      var front, last := spans[..|spans| - 1], spans[|spans| - 1];
      JustBeforeCounts(front, from, to, t);
      TotalConcat(JustBefore(t), Edges(front, from, to), EdgesOf(ClipOne(last.lo, last.hi, from, to)));
      TotalOfOne(JustBefore(t), ClipOne(last.lo, last.hi, from, to));
    }
  }

  /** Clipping to the chart's range loses nothing inside it. */
  lemma {:induction false} ClippedCounts(sessions: seq<Session>, start: int, end: int, now: int, t: int)
    requires start <= t < end
    ensures CountAt(Clipped(sessions, start, end, now), t) == Load(sessions, end, now, t)
  {
    if sessions != [] {
      var front, s := sessions[..|sessions| - 1], sessions[|sessions| - 1];
      ClippedCounts(front, start, end, now, t);
      assert sessions == front + [s];
      FilterConcat(Online(end, now, t), front, [s]);
      var one := if s.start.Some? then ClipOne(s.start.value, EndOf(s, end, now), start, end) else [];
      OneCounts(s, start, end, now, t);
      assert Clipped(sessions, start, end, now) == Clipped(front, start, end, now) + one;
      hide Clipped, Filter, CountAt;
      CountConcat(Clipped(front, start, end, now), one, t);
    }
  }

  /** Clipping one session to a range that holds t. */
  lemma OneCounts(s: Session, start: int, end: int, now: int, t: int)
    requires start <= t < end
    ensures var one := if s.start.Some? then ClipOne(s.start.value, EndOf(s, end, now), start, end) else [];
            |one| <= 1 && |Filter(Online(end, now, t), [s])| == if one != [] && one[0].lo <= t < one[0].hi then 1 else 0
  {
    assert Filter(Online(end, now, t), [s]) == if Online(end, now, t)(s) then [s] else [];
  }

  lemma CountConcat(spans: seq<Span>, one: seq<Span>, t: int)
    requires |one| <= 1
    ensures CountAt(spans + one, t) == CountAt(spans, t) + if one != [] && one[0].lo <= t < one[0].hi then 1 else 0
  {
    if one == [] {
      assert spans + one == spans;
    } else {
      assert (spans + one)[..|spans|] == spans;
    }
  }

  lemma PeakOfSessions(sessions: seq<Session>, start: int, end: int, now: int, from: int, to: int, peak: int)
    requires start <= from < to <= end
    requires var spans := Clipped(sessions, start, end, now);
             (forall t :: from <= t < to ==> CountAt(spans, t) <= peak)
             && exists t :: from <= t < to && CountAt(spans, t) == peak
    ensures IsPeak(sessions, end, now, from, to, peak)
  {
    var spans := Clipped(sessions, start, end, now);
    forall t | from <= t < to
      ensures CountAt(spans, t) == Load(sessions, end, now, t)
    {
      ClippedCounts(sessions, start, end, now, t);
    }
  }

  // ---------- the load, read off the events ----------

  /** Connect k holds at instant t, one still standing at the end of records up to the end of the chart and the present
      moment; what ended at an unknown time holds at no instant. */
  ghost predicate HoldsAt(es: seq<Event>, k: nat, end: int, now: int, t: int) {
    && k < |es| && es[k].Connected? && es[k].at <= t
    && var m := FirstEnd(es, |es|, k);
       if m == |es| then t < end && t < now
       else match es[m]
         case Disconnected(at, _, _) => t < at
         case Gap(_, lastSeen) => t < lastSeen
         case _ => false
  }

  ghost function Holding(es: seq<Event>, end: int, now: int, t: int): set<nat> {
    set k: nat | k < |es| && HoldsAt(es, k, end, now, t)
  }

  /** The load of the built list at an instant is the number of connects that hold then. */
  lemma LoadCountsConnects(logged: seq<Event>, gaps: seq<Event>, end: int, now: int, t: int)
    ensures Load(Built(logged, gaps), end, now, t) == |Holding(Timeline(logged, gaps), end, now, t)|
  {
    var es, sessions := Timeline(logged, gaps), Built(logged, gaps);
    var online := Filter(Online(end, now, t), sessions);
    BuiltIsExact(logged, gaps);
    FilterKeepsDistinct(Online(end, now, t), sessions);
    CountEvents(online);
    hide Built, Timeline, Filter, HoldsAt, Online, Shows;
    forall s
      ensures s in online <==> Shows(es, |es|, s) && Online(end, now, t)(s)
    {
    }
    SameEvents(es, online, end, now, t);
  }

  lemma SameEvents(es: seq<Event>, online: seq<Session>, end: int, now: int, t: int)
    requires forall s :: s in online <==> Shows(es, |es|, s) && Online(end, now, t)(s)
    ensures Holding(es, end, now, t) == EventsOf(online)
  {
    hide HoldsAt, Online, OrphanAt, Outcome;
    forall k: nat
      ensures k in Holding(es, end, now, t) <==> k in EventsOf(online)
    {
      if k < |es| && es[k].Connected? {
        HoldsIffOnline(es, k, end, now, t);
        if k in Holding(es, end, now, t) {
          assert Shows(es, |es|, Outcome(es, |es|, k));
        }
      }
      if k in EventsOf(online) {
        var s :| s in online && s.from == k;
        StartsOnline(s, end, now, t);
        StartIsConnect(es, s);
      }
      HoldingIsConnect(es, k, end, now, t);
    }
  }

  ghost function EventsOf(sessions: seq<Session>): set<nat> {
    set s | s in sessions :: s.from
  }

  lemma {:induction false} CountEvents(sessions: seq<Session>)
    requires DifferentEvents(sessions)
    ensures |sessions| == |EventsOf(sessions)|
  {
    if sessions != [] {
      var front, s := sessions[..|sessions| - 1], sessions[|sessions| - 1];
      CountEvents(front);
      assert EventsOf(sessions) == EventsOf(front) + {s.from};
      assert s.from !in EventsOf(front);
    }
  }

  lemma HoldsIffOnline(es: seq<Event>, k: nat, end: int, now: int, t: int)
    requires k < |es| && es[k].Connected?
    ensures HoldsAt(es, k, end, now, t) <==> Online(end, now, t)(Outcome(es, |es|, k))
    ensures Outcome(es, |es|, k).from == k
  {
    var m := FirstEnd(es, |es|, k);
    assert m < |es| ==> Ends(es, k, m);
  }

  lemma HoldingIsConnect(es: seq<Event>, k: nat, end: int, now: int, t: int)
    ensures HoldsAt(es, k, end, now, t) ==> k < |es| && es[k].Connected?
  {
  }

  lemma StartsOnline(s: Session, end: int, now: int, t: int)
    ensures Online(end, now, t)(s) ==> s.start.Some?
  {
  }

  lemma StartIsConnect(es: seq<Event>, s: Session)
    requires Shows(es, |es|, s) && s.start.Some?
    ensures es[s.from].Connected? && s == Outcome(es, |es|, s.from)
  {
  }

  // ---------- no client counts twice ----------

  ghost function Clients(sessions: seq<Session>): set<string> {
    set s | s in sessions :: s.client
  }

  ghost predicate OneEachClient(sessions: seq<Session>) {
    forall i, j :: 0 <= i < j < |sessions| ==> sessions[i].client != sessions[j].client
  }

  lemma {:induction false} CountClients(sessions: seq<Session>)
    requires OneEachClient(sessions)
    ensures |sessions| == |Clients(sessions)|
  {
    if sessions != [] {
      var front, s := sessions[..|sessions| - 1], sessions[|sessions| - 1];
      CountClients(front);
      assert Clients(sessions) == Clients(front) + {s.client};
      assert s.client !in Clients(front);
    }
  }

  lemma {:induction false} FilterKeepsDistinct(keep: Session -> bool, s: seq<Session>)
    requires DifferentEvents(s)
    ensures DifferentEvents(Filter(keep, s))
  {
    if s != [] {
      FilterKeepsDistinct(keep, s[1..]);
      assert forall t :: t in s[1..] ==> t.from != s[0].from;
    }
  }

  /** At every instant at most as many sessions are online as there are clients, so no peak exceeds that number. */
  lemma LoadIsAtMostClients(logged: seq<Event>, gaps: seq<Event>, end: int, now: int, t: int)
    requires NoGaps(logged) && GapsAreProper(gaps)
    ensures var sessions := Built(logged, gaps);
            Load(sessions, end, now, t) <= |Clients(sessions)|
  {
    var sessions := Built(logged, gaps);
    var online := Filter(Online(end, now, t), sessions);
    BuiltIsExact(logged, gaps);
    FilterKeepsDistinct(Online(end, now, t), sessions);
    hide Built, Timeline, Filter, Shows, IsSorted, DifferentEvents, OneEachClient, Online, GapsAreProper, NoGaps;
    forall a, b | a in online && b in online && a.client == b.client
      ensures a == b
    {
      OneOnline(logged, gaps, end, now, t, a, b);
    }
    NoClientTwice(online);
    CountClients(online);
    SubsetSize(Clients(online), Clients(sessions));
  }

  lemma NoClientTwice(sessions: seq<Session>)
    requires DifferentEvents(sessions)
    requires forall a, b :: a in sessions && b in sessions && a.client == b.client ==> a == b
    ensures OneEachClient(sessions)
  {
  }

  lemma OneOnline(logged: seq<Event>, gaps: seq<Event>, end: int, now: int, t: int, a: Session, b: Session)
    requires NoGaps(logged) && GapsAreProper(gaps)
    requires a in Built(logged, gaps) && b in Built(logged, gaps) && a.client == b.client
    requires Online(end, now, t)(a) && Online(end, now, t)(b)
    ensures a == b
  {
    hide Built;
    ClientSessionsAreDisjoint(logged, gaps, a);
  }

  lemma PeakIsAtMostClients(logged: seq<Event>, gaps: seq<Event>, end: int, now: int, from: int, to: int, peak: int)
    requires NoGaps(logged) && GapsAreProper(gaps)
    requires IsPeak(Built(logged, gaps), end, now, from, to, peak)
    ensures peak <= |Clients(Built(logged, gaps))|
  {
    hide Built, Load;
    var t :| from <= t < to && Load(Built(logged, gaps), end, now, t) == peak;
    LoadIsAtMostClients(logged, gaps, end, now, t);
  }
}
