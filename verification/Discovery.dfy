/** Adoption of rules that were added to a live chain by hand: which specs are adopted, as what, and at which
    position. */
module Discovery {
  import opened Wrappers
  import opened Rules

  // ---------- which live rules are adopted ----------

  function OrElse(o: Option<string>, default: string): string {
    if o.Some? then o.value else default
  }

  /** The row a live rule of the given chain is recorded as, or None for a shape the application does not model. */
  function Adopt(c: Chain, r: LiveRule): Option<Rule> {
    match c
    case FORWARD =>
      if r.target.Jump? then Some(Forward(r.target.verdict, OrElse(r.protocol, "all"), r.src, r.dst, r.dport)) else None
    case INPUT =>
      if r.target.Jump? then Some(Input(r.target.verdict, OrElse(r.protocol, "all"), r.src, r.dport)) else None
    case PREROUTING =>
      if r.target.DnatTo? then
        Some(PortForward(OrElse(r.protocol, "tcp"), r.dport, r.target.ip,
                         if Given(r.target.port).Some? then r.target.port else r.dport, Some(OrElse(r.inIface, ""))))
      else None
    case POSTROUTING =>
      if r.target.MasqueradeTarget? then Some(Masquerade(r.src, r.outIface))
      else if r.target.SnatTo? then Some(Snat(r.src, r.outIface, r.target.ip))
      else None
  }

  function AdoptedNote(c: Comment): string {
    if c.Note? then "(from CLI) " + c.text else "(from CLI)"
  }

  /** Tagged with the id of a row that exists. */
  predicate Known(t: Table, r: LiveRule) {
    r.comment.Tracked? && r.comment.id in t
  }

  predicate Candidate(t: Table, c: Chain, r: LiveRule) {
    !r.comment.BlockTag? && !Known(t, r) && Adopt(c, r).Some?
  }

  /** The rules that a scan of the chain leaves where they are. */
  function Staying(t: Table, c: Chain): LiveRule -> bool {
    r => !Candidate(t, c, r)
  }

  /** The targets a chain's adopted rules may have. */
  predicate Fits(c: Chain, t: Target) {
    match c
    case FORWARD => t.Jump?
    case INPUT => t.Jump?
    case PREROUTING => t.DnatTo?
    case POSTROUTING => t.MasqueradeTarget? || t.SnatTo?
  }

  /** Every rule that fits its chain is adopted, whatever it matches, and no other. */
  lemma AdoptsIff(c: Chain, r: LiveRule)
    ensures Adopt(c, r).Some? <==> Fits(c, r.target)
  {
  }

  /** What the live rule leaves open: any protocol of a filter rule, TCP for a port forward, which without a port of its
      own goes to the port it came in at, on any interface. */
  lemma AdoptedDefaults(c: Chain, r: LiveRule)
    requires Adopt(c, r).Some?
    ensures var rule := Adopt(c, r).value;
            && (c in {FORWARD, INPUT} && r.protocol.None? ==> rule.protocol == "all")
            && (c == PREROUTING && r.protocol.None? ==> rule.protocol == "tcp")
            && (c == PREROUTING && r.target.port in {None, Some("")} ==> rule.targetPort == r.dport)
            && (c == PREROUTING && r.inIface.None? ==> rule.extIface == Some(""))
  {
  }

  lemma AdoptedTargetsItsChain(c: Chain, r: LiveRule)
    requires Adopt(c, r).Some?
    ensures c in ChainsFor(Adopt(c, r).value) && !Adopt(c, r).value.ClientBlock?
  {
  }

  // ---------- interpolated positions ----------

  /** For each slot of a live chain: the position of its row if it is tracked already. */
  type Anchors = seq<Option<real>>

  /** First slot of the run of untracked slots that holds slot i. */
  function RunStart(a: Anchors, i: nat): (s: nat)
    requires i < |a| && a[i].None?
    ensures s <= i && (forall k :: s <= k <= i ==> a[k].None?) && (s > 0 ==> a[s - 1].Some?)
  {
    if i == 0 || a[i - 1].Some? then i else RunStart(a, i - 1)
  }

  /** First slot behind that run. */
  function RunEnd(a: Anchors, i: nat): (e: nat)
    requires i <= |a|
    ensures i <= e <= |a| && (forall k :: i <= k < e ==> a[k].None?) && (e < |a| ==> a[e].Some?)
    decreases |a| - i
  {
    if i == |a| || a[i].Some? then i else RunEnd(a, i + 1)
  }

  /** Position of the k-th of `count` new rows between two optional neighbours. */
  function Interpolated(left: Option<real>, right: Option<real>, count: nat, k: nat): real
    requires k < count
  {
    match (left, right)
    case (None, None) => k as real
    case (None, Some(r)) => r - (count - k) as real
    case (Some(l), None) => l + k as real + 1.0
    case (Some(l), Some(r)) => l + (r - l) / (count + 1) as real * (k + 1) as real
  }

  function Left(a: Anchors, s: nat): Option<real>
    requires s <= |a|
  {
    if s > 0 then a[s - 1] else None
  }

  function Right(a: Anchors, e: nat): Option<real>
    requires e <= |a|
  {
    if e < |a| then a[e] else None
  }

  /** The position given to a row adopted at an untracked slot. */
  function PositionAt(a: Anchors, i: nat): real
    requires i < |a| && a[i].None?
  {
    var s, e := RunStart(a, i), RunEnd(a, i);
    Interpolated(Left(a, s), Right(a, e), e - s, i - s)
  }

  /** The position of a slot after adoption, tracked or not. */
  function Place(a: Anchors, i: nat): real
    requires i < |a|
  {
    if a[i].Some? then a[i].value else PositionAt(a, i)
  }

  ghost predicate WeakAnchors(a: Anchors) {
    forall i, j :: 0 <= i < j < |a| && a[i].Some? && a[j].Some? ==> a[i].value <= a[j].value
  }

  /** The run of untracked slots around slot i does not lie between two tracked rows of equal position. */
  predicate Roomy(a: Anchors, i: nat)
    requires i < |a| && a[i].None?
  {
    var left, right := Left(a, RunStart(a, i)), Right(a, RunEnd(a, i));
    left.Some? && right.Some? ==> left.value < right.value
  }

  /** What the caller finds at a slot: nothing for a tracked one, the interpolated position for the others. */
  function NewPosition(a: Anchors, i: nat): Option<real>
    requires i < |a|
  {
    if a[i].Some? then None else Some(PositionAt(a, i))
  }

  /** The loop of _positions_for_new_specs, run by run. */
  method PositionsForNewSpecs(anchors: Anchors) returns (result: seq<Option<real>>)
    ensures |result| == |anchors|
    ensures forall i :: 0 <= i < |anchors| ==> result[i] == NewPosition(anchors, i)
  {
    var n := |anchors|;
    result := [];
    hide PositionAt;
    while |result| < n
      invariant |result| <= n
      invariant 0 < |result| < n && anchors[|result|].None? ==> anchors[|result| - 1].Some?
      invariant forall m :: 0 <= m < |result| ==> result[m] == NewPosition(anchors, m)
    {
      var i := |result|;
      if anchors[i].Some? {
        result := result + [None];
      } else {
        var j := i;
        while j < n && anchors[j].None?
          invariant i <= j <= n
          invariant forall m :: i <= m < j ==> anchors[m].None?
          decreases n - j
        {
          j := j + 1;
        }
        var run := RunPositions(anchors, i, j);
        result := result + run;
      }
    }
  }

  /** The body of that loop for one maximal run of untracked slots. */
  method RunPositions(anchors: Anchors, i: nat, j: nat) returns (run: seq<Option<real>>)
    requires i < j <= |anchors| && (forall m :: i <= m < j ==> anchors[m].None?)
    requires (i > 0 ==> anchors[i - 1].Some?) && (j < |anchors| ==> anchors[j].Some?)
    ensures |run| == j - i
    ensures forall k :: 0 <= k < j - i ==> run[k] == NewPosition(anchors, i + k)
  {
    hide Interpolated, RunStart, RunEnd;
    var left := if i > 0 then anchors[i - 1] else None;
    var right := if j < |anchors| then anchors[j] else None;
    var count := j - i;
    run := [];
    for k := 0 to count
      invariant |run| == k
      invariant forall m :: 0 <= m < k ==> run[m] == Some(Interpolated(left, right, count, m))
    {
      run := run + [Some(Interpolated(left, right, count, k))];
    }
    RunBounds(anchors, i, j);
    forall k | 0 <= k < count
      ensures run[k] == NewPosition(anchors, i + k)
    {
      assert RunStart(anchors, i + k) == i && RunEnd(anchors, i + k) == j;
    }
  }

  /** A maximal run of untracked slots is what RunStart and RunEnd find from each of its slots. */
  lemma {:induction false} RunBounds(a: Anchors, i: nat, j: nat)
    requires i < j <= |a| && (forall m :: i <= m < j ==> a[m].None?)
    requires (i > 0 ==> a[i - 1].Some?) && (j < |a| ==> a[j].Some?)
    ensures forall m :: i <= m < j ==> RunStart(a, m) == i && RunEnd(a, m) == j
  {
    forall m | i <= m < j
      ensures RunStart(a, m) == i && RunEnd(a, m) == j
    {
    }
  }

  /** Interpolated positions climb through the run and stay strictly between the neighbours. */
  lemma InterpolatedClimbs(left: Option<real>, right: Option<real>, count: nat, k: nat)
    requires k < count
    requires left.Some? && right.Some? ==> left.value < right.value
    ensures left.Some? ==> left.value < Interpolated(left, right, count, k)
    ensures right.Some? ==> Interpolated(left, right, count, k) < right.value
    ensures k + 1 < count ==> Interpolated(left, right, count, k) < Interpolated(left, right, count, k + 1)
  {
    if left.Some? && right.Some? {
      var gap := right.value - left.value;
      var step := gap / (count + 1) as real;
      assert step > 0.0 && step * (count + 1) as real == gap;
      Scaled(step, (k + 1) as real, (count + 1) as real);
      Scaled(step, 0.0, (k + 1) as real);
      Scaled(step, (k + 1) as real, (k + 2) as real);
    }
  }

  lemma Scaled(x: real, a: real, b: real)
    requires x > 0.0 && a < b
    ensures x * a < x * b
  {
    assert x * (b - a) > 0.0;
  }

  /** The places of a run are evenly spaced: the room between two neighbours is divided into equal parts, and beside a
      single one, or none, the steps are of one. */
  lemma EvenlySpaced(left: Option<real>, right: Option<real>, count: nat, k: nat)
    requires k < count
    ensures var step :=
              if left.Some? && right.Some? then (right.value - left.value) / (count + 1) as real else 1.0;
            && (k + 1 < count ==> Interpolated(left, right, count, k + 1) == Interpolated(left, right, count, k) + step)
            && (left.Some? ==> Interpolated(left, right, count, 0) == left.value + step)
            && (right.Some? ==> Interpolated(left, right, count, count - 1) == right.value - step)
            && (left.None? && right.None? ==> Interpolated(left, right, count, 0) == 0.0)
  {
    if left.Some? && right.Some? {
      var n := (count + 1) as real;
      var gap := right.value - left.value;
      var step := gap / n;
      assert step * n == gap;
      assert step * count as real == step * n - step;
      assert step * (k + 2) as real == step * (k + 1) as real + step;
    }
  }

  lemma {:induction false} InterpolatedClimbsFar(left: Option<real>, right: Option<real>, count: nat, k: nat, l: nat)
    requires k < l < count
    requires left.Some? && right.Some? ==> left.value < right.value
    ensures Interpolated(left, right, count, k) < Interpolated(left, right, count, l)
    decreases l
  {
    hide Interpolated;
    if k + 1 < l {
      InterpolatedClimbsFar(left, right, count, k, l - 1);
    }
    InterpolatedClimbs(left, right, count, l - 1);
  }

  /** A roomy slot lies strictly between its tracked neighbours. */
  lemma PlaceIsBetween(a: Anchors, i: nat)
    requires i < |a| && a[i].None? && Roomy(a, i)
    ensures var s, e := RunStart(a, i), RunEnd(a, i);
            && (s > 0 ==> a[s - 1].value < Place(a, i))
            && (e < |a| ==> Place(a, i) < a[e].value)
  {
    hide Interpolated;
    var s, e := RunStart(a, i), RunEnd(a, i);
    InterpolatedClimbs(Left(a, s), Right(a, e), e - s, i - s);
  }

  /** Adoption fits every new row strictly into its place: behind all slots before it and before all slots behind it,
      new ones and tracked ones, when the runs it looks at are roomy. */
  lemma PlacesClimb(a: Anchors, i: nat, j: nat)
    requires WeakAnchors(a) && i < j < |a| && (a[i].None? || a[j].None?)
    requires (a[i].None? ==> Roomy(a, i)) && (a[j].None? ==> Roomy(a, j))
    ensures Place(a, i) < Place(a, j)
  {
    hide PositionAt, Roomy, RunStart, RunEnd;
    if a[i].None? { PlaceIsBetween(a, i); }
    if a[j].None? { PlaceIsBetween(a, j); }
    if a[i].None? && a[j].None? && RunEnd(a, i) > j {
      SameRunClimbs(a, i, j);
    }
  }

  lemma SameRunClimbs(a: Anchors, i: nat, j: nat)
    requires i < j < |a| && a[i].None? && Roomy(a, i) && RunEnd(a, i) > j
    ensures a[j].None? && Place(a, i) < Place(a, j)
  {
    hide Interpolated, RunStart, RunEnd;
    var s, e := RunStart(a, i), RunEnd(a, i);
    RunBounds(a, s, e);
    InterpolatedClimbsFar(Left(a, s), Right(a, e), e - s, i - s, j - s);
  }

  /** Between two tracked rows of equal position every new row gets that position too. */
  lemma PlaceOfTie(a: Anchors, i: nat)
    requires i < |a| && a[i].None? && WeakAnchors(a) && !Roomy(a, i)
    ensures var s, e := RunStart(a, i), RunEnd(a, i);
            s > 0 && e < |a| && a[s - 1].value == a[e].value == Place(a, i)
  {
    var s, e := RunStart(a, i), RunEnd(a, i);
    assert a[s - 1].value <= a[e].value;
    assert (a[e].value - a[s - 1].value) / (e - s + 1) as real == 0.0;
  }

  // ---------- one scan of a chain ----------

  function AnchorOf(t: Table, r: LiveRule): Option<real> {
    if Known(t, r) then Some(t[r.comment.id].position) else None
  }

  function AnchorsOf(t: Table, specs: seq<LiveRule>): (a: Anchors)
    ensures |a| == |specs| && forall i :: 0 <= i < |specs| ==> a[i] == AnchorOf(t, specs[i])
  {
    seq(|specs|, i requires 0 <= i < |specs| => AnchorOf(t, specs[i]))
  }

  /** The row recorded for slot i, carrying the given id. */
  function AdoptedRow(t: Table, c: Chain, specs: seq<LiveRule>, i: nat, id: int): Row
    requires i < |specs| && Candidate(t, c, specs[i])
  {
    Row(id, Adopt(c, specs[i]).value, AdoptedNote(specs[i].comment), true, PositionAt(AnchorsOf(t, specs), i))
  }

  /** The rows recorded for slots 0..n, in slot order, with consecutive ids.  Candidates are judged by the table `t`
      that was read when the call began. */
  function AdoptedRows(t: Table, c: Chain, specs: seq<LiveRule>, n: nat, firstId: int): (rows: seq<Row>)
    requires n <= |specs|
    ensures forall k :: 0 <= k < |rows| ==> rows[k].id == firstId + k && rows[k].enabled && c in ChainsFor(rows[k].rule)
    ensures forall k :: 0 <= k < |rows| ==> !rows[k].rule.ClientBlock?
  {
    if n == 0 then []
    else
      var before := AdoptedRows(t, c, specs, n - 1, firstId);
      if Candidate(t, c, specs[n - 1]) then
        AdoptedTargetsItsChain(c, specs[n - 1]);
        before + [AdoptedRow(t, c, specs, n - 1, firstId + |before|)]
      else before
  }

  /** The table with the given rows inserted under their ids. */
  function Inserted(t: Table, rows: seq<Row>): Table {
    if rows == [] then t else Inserted(t, rows[..|rows| - 1])[rows[|rows| - 1].id := rows[|rows| - 1]]
  }

  function TouchedBy(rows: seq<Row>): set<Chain> {
    if rows == [] then {} else TouchedBy(rows[..|rows| - 1]) + ChainsFor(rows[|rows| - 1].rule)
  }
}
