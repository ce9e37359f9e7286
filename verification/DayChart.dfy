/** The client page's chart of connected time per day: merge the session intervals, then split them over the days. */
module DayChart {
  import opened Wrappers
  import opened Sequences
  import opened Sorting
  import opened Ranges

  /** Milliseconds; `plain` says the session is neither ongoing nor annotated. */
  datatype Entry = Entry(start: Option<int>, end: Option<int>, plain: bool)

  /** Local days may be shorter or longer than 24 hours. */
  datatype Day = Day(start: int, end: int)

  predicate StartOrder(a: Span, b: Span) {
    a.lo <= b.lo
  }

  predicate Counts(e: Entry) {
    e.plain && e.start.Some? && e.end.Some? && e.end.value > e.start.value
  }

  function SpanOf(e: Entry): Span {
    if e.start.Some? && e.end.Some? then Span(e.start.value, e.end.value) else Span(0, 0)
  }

  function Spans(entries: seq<Entry>): seq<Span> {
    Map(SpanOf, Filter(Counts, entries))
  }

  // ---------- the reference: instants ----------

  predicate Has(s: Span, t: int) {
    s.lo <= t < s.hi
  }

  ghost predicate InSome(spans: seq<Span>, t: int) {
    exists i :: 0 <= i < |spans| && Has(spans[i], t)
  }

  /** A completed session without remarks lasted over instant t. */
  predicate Covers(e: Entry, t: int) {
    e.plain && e.start.Some? && e.end.Some? && e.start.value <= t < e.end.value
  }

  /** The client was connected at t. */
  ghost predicate Connected(entries: seq<Entry>, t: int) {
    exists i :: 0 <= i < |entries| && Covers(entries[i], t)
  }

  lemma CoversIff(e: Entry, t: int)
    ensures Covers(e, t) <==> Counts(e) && Has(SpanOf(e), t)
  {
  }

  ghost function ConnectedIn(entries: seq<Entry>, from: int, to: int): set<int> {
    set t | from <= t < to && Connected(entries, t)
  }

  ghost function CoveredIn(spans: seq<Span>, from: int, to: int): set<int> {
    set t | from <= t < to && InSome(spans, t)
  }

  // ---------- the chart ----------

  function Length(from: int, to: int): nat {
    Max(0, to - from)
  }

  function Overlap(s: Span, from: int, to: int): nat {
    Length(Max(s.lo, from), Min(s.hi, to))
  }

  function TotalOverlap(spans: seq<Span>, from: int, to: int): nat {
    if spans == [] then 0
    else TotalOverlap(spans[..|spans| - 1], from, to) + Overlap(spans[|spans| - 1], from, to)
  }

  /** The part of a day inside the selected range. */
  function From(d: Day, rangeStart: int): int {
    Max(d.start, rangeStart)
  }

  function To(d: Day, rangeEnd: int): int {
    Min(d.end, rangeEnd)
  }

  /** Consecutive days from `first` that reach to the end of the range. */
  ghost predicate Calendar(days: seq<Day>, first: int, rangeEnd: int) {
    && (forall i :: 0 <= i < |days| ==> days[i].start < days[i].end && days[i].start < rangeEnd)
    && (forall i :: 0 <= i < |days| - 1 ==> days[i].end == days[i + 1].start)
    && (if days == [] then first >= rangeEnd else days[0].start == first && days[|days| - 1].end >= rangeEnd)
  }

  method Days(first: int, nextMidnight: int -> int, rangeEnd: int) returns (days: seq<Day>)
    requires forall t :: nextMidnight(t) > t
    ensures Calendar(days, first, rangeEnd)
    ensures forall i :: 0 <= i < |days| ==> days[i].end == nextMidnight(days[i].start)
  {
    var day := first;
    days := [];
    while day < rangeEnd
      invariant forall i :: 0 <= i < |days| ==> days[i].start < days[i].end && days[i].start < rangeEnd
      invariant forall i :: 0 <= i < |days| ==> days[i].end == nextMidnight(days[i].start)
      invariant forall i :: 1 <= i < |days| ==> days[i - 1].end == days[i].start
      invariant if days == [] then day == first else days[0].start == first && days[|days| - 1].end == day
      decreases rangeEnd - day
    {
      var dayStart := day;
      day := nextMidnight(day);
      days := days + [Day(dayStart, day)];
    }
  }

  /** Sorted, and a gap of at least one instant between neighbours. */
  ghost predicate Separate(spans: seq<Span>) {
    && (forall i :: 0 <= i < |spans| ==> spans[i].lo < spans[i].hi)
    && (forall i, j :: 0 <= i < j < |spans| ==> spans[i].hi < spans[j].lo)
  }

  method Merge(intervals: seq<Span>) returns (merged: seq<Span>)
    requires IsSorted(StartOrder, intervals) && forall i :: 0 <= i < |intervals| ==> intervals[i].lo < intervals[i].hi
    ensures Separate(merged)
    ensures forall t :: InSome(merged, t) <==> InSome(intervals, t)
  {
    merged := [];
    for n := 0 to |intervals|
      invariant Separate(merged)
      invariant merged != [] ==> n > 0 && merged[|merged| - 1].lo <= intervals[n - 1].lo
      invariant forall t :: InSome(merged, t) <==> InSome(intervals[..n], t)
    {
      var s := intervals[n];
      assert n > 0 ==> StartOrder(intervals[n - 1], s);
      ghost var before := merged;
      if merged != [] && s.lo <= merged[|merged| - 1].hi {
        var last := merged[|merged| - 1];
        merged := merged[..|merged| - 1] + [Span(last.lo, Max(last.hi, s.hi))];
        ExtendedCovers(before, s);
      } else {
        merged := merged + [s];
        AppendedCovers(before, s);
      }
      assert intervals[..n + 1] == intervals[..n] + [s];
      AppendedCovers(intervals[..n], s);
    }
    assert intervals[..|intervals|] == intervals;
  }

  lemma AppendedCovers(spans: seq<Span>, s: Span)
    ensures forall t :: InSome(spans + [s], t) <==> InSome(spans, t) || Has(s, t)
  {
    forall t
      ensures InSome(spans + [s], t) <==> InSome(spans, t) || Has(s, t)
    {
      if InSome(spans, t) {
        var i :| 0 <= i < |spans| && Has(spans[i], t);
        assert Has((spans + [s])[i], t);
      }
      if Has(s, t) { assert Has((spans + [s])[|spans|], t); }
    }
  }

  lemma ExtendedCovers(spans: seq<Span>, s: Span)
    requires spans != [] && spans[|spans| - 1].lo <= s.lo <= spans[|spans| - 1].hi
    ensures var last := spans[|spans| - 1];
            forall t :: InSome(spans[..|spans| - 1] + [Span(last.lo, Max(last.hi, s.hi))], t)
              <==> InSome(spans, t) || Has(s, t)
  {
    var front, last := spans[..|spans| - 1], spans[|spans| - 1];
    AppendedCovers(front, Span(last.lo, Max(last.hi, s.hi)));
    AppendedCovers(front, last);
    assert spans == front + [last];
  }

  /** For every merged interval, every bucket's milliseconds grow by the overlap. */
  method AddUp(merged: seq<Span>, days: seq<Day>, rangeStart: int, rangeEnd: int, ms: array<int>)
    requires ms.Length == |days| && forall b :: 0 <= b < ms.Length ==> ms[b] == 0
    modifies ms
    ensures forall b :: 0 <= b < ms.Length ==>
              ms[b] == TotalOverlap(merged, From(days[b], rangeStart), To(days[b], rangeEnd))
  {
    for n := 0 to |merged|
      invariant forall b :: 0 <= b < ms.Length ==>
                  ms[b] == TotalOverlap(merged[..n], From(days[b], rangeStart), To(days[b], rangeEnd))
    {
      assert merged[..n + 1][..n] == merged[..n];
      for c := 0 to ms.Length
        invariant forall b :: 0 <= b < c ==>
                    ms[b] == TotalOverlap(merged[..n + 1], From(days[b], rangeStart), To(days[b], rangeEnd))
        invariant forall b :: c <= b < ms.Length ==>
                    ms[b] == TotalOverlap(merged[..n], From(days[b], rangeStart), To(days[b], rangeEnd))
      {
        var s := merged[n];
        ms[c] := ms[c] + Max(0, Min(Min(s.hi, days[c].end), rangeEnd) - Max(Max(s.lo, days[c].start), rangeStart));
      }
    }
    assert merged[..|merged|] == merged;
  }

  /** renderSessionTimeline up to the bars: each bar is the number of instants of its day, within the range, at which
      the client was connected. */
  method SessionTimeline(entries: seq<Entry>, first: int, nextMidnight: int -> int, rangeStart: int, rangeEnd: int)
    returns (days: seq<Day>, ms: array<int>)
    requires forall t :: nextMidnight(t) > t
    ensures fresh(ms) && ms.Length == |days| && Calendar(days, first, rangeEnd)
    ensures forall i :: 0 <= i < |days| ==> days[i].end == nextMidnight(days[i].start)
    ensures forall b :: 0 <= b < |days| ==>
              ms[b] == |ConnectedIn(entries, From(days[b], rangeStart), To(days[b], rangeEnd))|
  {
    hide Calendar, ConnectedIn, Sort, Spans, TotalOverlap, InSome, Separate, Overlap;
    days := Days(first, nextMidnight, rangeEnd);
    var intervals := Sort(StartOrder, Spans(entries));
    SortedSpans(entries);
    var merged := Merge(intervals);
    BarsAreRight(entries, intervals, merged, days, rangeStart, rangeEnd);
    ms := NoBars(|days|);
    AddUp(merged, days, rangeStart, rangeEnd, ms);
  }

  method NoBars(n: nat) returns (ms: array<int>)
    ensures fresh(ms) && ms.Length == n && forall b :: 0 <= b < n ==> ms[b] == 0
  {
    ms := new int[n];
    for b := 0 to n
      invariant forall c :: 0 <= c < b ==> ms[c] == 0
    {
      ms[b] := 0;
    }
  }

  lemma BarsAreRight(entries: seq<Entry>, intervals: seq<Span>, merged: seq<Span>, days: seq<Day>, rangeStart: int,
      rangeEnd: int)
    requires intervals == Sort(StartOrder, Spans(entries))
    requires Separate(merged) && forall t :: InSome(merged, t) <==> InSome(intervals, t)
    ensures forall b :: 0 <= b < |days| ==>
              TotalOverlap(merged, From(days[b], rangeStart), To(days[b], rangeEnd))
              == |ConnectedIn(entries, From(days[b], rangeStart), To(days[b], rangeEnd))|
  {
    SortedSpans(entries);
    hide InSome, Connected, ConnectedIn, TotalOverlap, Sort, Spans, Separate;
    forall b | 0 <= b < |days|
      ensures TotalOverlap(merged, From(days[b], rangeStart), To(days[b], rangeEnd))
              == |ConnectedIn(entries, From(days[b], rangeStart), To(days[b], rangeEnd))|
    {
      OverlapIsConnected(entries, merged, From(days[b], rangeStart), To(days[b], rangeEnd));
    }
  }

  // ---------- why the bars are right ----------

  /** The intervals, before sorting. */
  lemma SpansCover(entries: seq<Entry>)
    ensures forall s :: s in Spans(entries) ==> s.lo < s.hi && exists e :: e in entries && Counts(e) && SpanOf(e) == s
    ensures forall e :: e in entries && Counts(e) ==> SpanOf(e) in Spans(entries)
  {
    var kept := Filter(Counts, entries);
    var spans := Spans(entries);
    hide Filter, Map;
    forall s | s in spans
      ensures s.lo < s.hi && exists e :: e in entries && Counts(e) && SpanOf(e) == s
    {
      var i :| 0 <= i < |spans| && spans[i] == s;
      assert kept[i] in kept && SpanOf(kept[i]) == s;
    }
    forall e | e in entries && Counts(e)
      ensures SpanOf(e) in spans
    {
      var i :| 0 <= i < |kept| && kept[i] == e;
      assert spans[i] == SpanOf(e);
    }
  }

  lemma SortedSpans(entries: seq<Entry>)
    ensures var intervals := Sort(StartOrder, Spans(entries));
            && IsSorted(StartOrder, intervals)
            && (forall i :: 0 <= i < |intervals| ==> intervals[i].lo < intervals[i].hi)
            && forall t :: InSome(intervals, t) <==> Connected(entries, t)
  {
    var intervals := Sort(StartOrder, Spans(entries));
    assert TotalPreorder(StartOrder);
    SortSorts(StartOrder, Spans(entries));
    SpansCover(entries);
    hide Sort, Spans, Counts, SpanOf;
    forall i | 0 <= i < |intervals|
      ensures intervals[i].lo < intervals[i].hi
    {
      assert intervals[i] in intervals;
    }
    forall t
      ensures InSome(intervals, t) <==> Connected(entries, t)
    {
      if InSome(intervals, t) {
        var i :| 0 <= i < |intervals| && Has(intervals[i], t);
        assert intervals[i] in intervals;
        var e :| e in entries && Counts(e) && SpanOf(e) == intervals[i];
        var k :| 0 <= k < |entries| && entries[k] == e;
        CoversIff(e, t);
      }
      if Connected(entries, t) {
        var i :| 0 <= i < |entries| && Covers(entries[i], t);
        CoversIff(entries[i], t);
        assert entries[i] in entries && SpanOf(entries[i]) in intervals;
        var k :| 0 <= k < |intervals| && intervals[k] == SpanOf(entries[i]);
      }
    }
  }

  ghost function Instants(from: int, to: int): set<int> {
    set t | from <= t < to && Has(Span(from, to), t)
  }

  lemma {:induction false} InstantsSize(from: int, to: int)
    ensures |Instants(from, to)| == Length(from, to)
    decreases Length(from, to)
  {
    if from < to {
      InstantsSize(from, to - 1);
      assert Instants(from, to) == Instants(from, to - 1) + {to - 1};
    } else {
      assert Instants(from, to) == {};
    }
  }

  /** Separate intervals share no instant, so their overlaps add up to the size of their union. */
  lemma {:induction false} OverlapIsSize(spans: seq<Span>, from: int, to: int)
    requires Separate(spans)
    ensures TotalOverlap(spans, from, to) == |CoveredIn(spans, from, to)|
  {
    if spans == [] {
      assert CoveredIn(spans, from, to) == {};
    } else {
      var front, last := spans[..|spans| - 1], spans[|spans| - 1];
      OverlapIsSize(front, from, to) by { NoneShared(front, last); assert spans == front + [last]; }
      InstantsSize(Max(last.lo, from), Min(last.hi, to));
      NoneShared(front, last);
      assert spans == front + [last];
      CoveredSplits(front, last, from, to);
      hide Separate, CoveredIn;
    }
  }

  lemma NoneShared(front: seq<Span>, last: Span)
    requires Separate(front + [last])
    ensures Separate(front) && forall t :: !(InSome(front, t) && Has(last, t))
  {
    var all := front + [last];
    assert forall i :: 0 <= i < |front| ==> all[i] == front[i] && all[i].hi < all[|front|].lo;
  }

  lemma CoveredSplits(front: seq<Span>, last: Span, from: int, to: int)
    requires forall t :: !(InSome(front, t) && Has(last, t))
    ensures |CoveredIn(front + [last], from, to)|
            == |CoveredIn(front, from, to)| + |Instants(Max(last.lo, from), Min(last.hi, to))|
  {
    var piece := Instants(Max(last.lo, from), Min(last.hi, to));
    AppendedCovers(front, last);
    assert forall t :: t in piece <==> from <= t < to && Has(last, t);
    hide InSome;
    assert CoveredIn(front + [last], from, to) == CoveredIn(front, from, to) + piece;
    assert CoveredIn(front, from, to) !! piece;
  }

  lemma OverlapIsConnected(entries: seq<Entry>, spans: seq<Span>, from: int, to: int)
    requires Separate(spans) && forall t :: InSome(spans, t) <==> Connected(entries, t)
    ensures TotalOverlap(spans, from, to) == |ConnectedIn(entries, from, to)|
  {
    OverlapIsSize(spans, from, to);
    assert CoveredIn(spans, from, to) == ConnectedIn(entries, from, to);
  }

  /** No bar is longer than its own day. */
  lemma BarFitsItsDay(entries: seq<Entry>, d: Day, rangeStart: int, rangeEnd: int)
    ensures |ConnectedIn(entries, From(d, rangeStart), To(d, rangeEnd))| <= Length(d.start, d.end)
  {
    InstantsSize(d.start, d.end);
    SubsetSize(ConnectedIn(entries, From(d, rangeStart), To(d, rangeEnd)), Instants(d.start, d.end));
  }

  ghost function SumOfBars(entries: seq<Entry>, days: seq<Day>, rangeStart: int, rangeEnd: int): nat {
    if days == [] then 0
    else
      SumOfBars(entries, days[..|days| - 1], rangeStart, rangeEnd)
      + |ConnectedIn(entries, From(days[|days| - 1], rangeStart), To(days[|days| - 1], rangeEnd))|
  }

  lemma {:induction false} BarsUpTo(entries: seq<Entry>, days: seq<Day>, rangeStart: int, rangeEnd: int)
    requires days != [] && days[0].start <= rangeStart
    requires forall i :: 0 <= i < |days| ==> days[i].start < days[i].end && days[i].start < rangeEnd
    requires forall i :: 0 <= i < |days| - 1 ==> days[i].end == days[i + 1].start
    ensures SumOfBars(entries, days, rangeStart, rangeEnd)
            == |ConnectedIn(entries, rangeStart, Min(days[|days| - 1].end, rangeEnd))|
  {
    var front, last := days[..|days| - 1], days[|days| - 1];
    var bar := ConnectedIn(entries, From(last, rangeStart), To(last, rangeEnd));
    if front == [] {
      assert bar == ConnectedIn(entries, rangeStart, Min(last.end, rangeEnd));
    } else {
      BarsUpTo(entries, front, rangeStart, rangeEnd);
      var before := ConnectedIn(entries, rangeStart, Min(front[|front| - 1].end, rangeEnd));
      assert ConnectedIn(entries, rangeStart, Min(last.end, rangeEnd)) == before + bar;
      assert before !! bar;
    }
  }

  /** The bars add up to exactly the connected time in the selected range. */
  lemma BarsAddUp(entries: seq<Entry>, days: seq<Day>, first: int, rangeStart: int, rangeEnd: int)
    requires Calendar(days, first, rangeEnd) && first <= rangeStart
    ensures SumOfBars(entries, days, rangeStart, rangeEnd) == |ConnectedIn(entries, rangeStart, rangeEnd)|
  {
    if days == [] {
      assert ConnectedIn(entries, rangeStart, rangeEnd) == {};
    } else {
      BarsUpTo(entries, days, rangeStart, rangeEnd);
    }
  }

  /** Records that cover no further instant, such as duplicates or parts of others, add nothing. */
  lemma OverlapsAddNothing(entries: seq<Entry>, extra: seq<Entry>, from: int, to: int)
    ensures |ConnectedIn(entries + extra, from, to)| == |ConnectedIn(entries, from, to)|
            <==> forall t :: from <= t < to && Connected(extra, t) ==> Connected(entries, t)
  {
    var all, old' := ConnectedIn(entries + extra, from, to), ConnectedIn(entries, from, to);
    forall t
      ensures Connected(entries + extra, t) <==> Connected(entries, t) || Connected(extra, t)
    {
      if Connected(entries, t) {
        var i :| 0 <= i < |entries| && Covers(entries[i], t);
        assert (entries + extra)[i] == entries[i];
      }
      if Connected(extra, t) {
        var i :| 0 <= i < |extra| && Covers(extra[i], t);
        assert (entries + extra)[|entries| + i] == extra[i];
      }
    }
    assert all == old' + (all - old');
    if |all| == |old'| {
      forall t | from <= t < to && Connected(extra, t)
        ensures Connected(entries, t)
      {
        assert t in all;
      }
    } else {
      var t :| t in all - old';
    }
  }
}
