/** The rule table of the web UI, the live iptables chains, and how a table row is printed into a chain. */
module Rules {
  import opened Wrappers
  import opened Sequences

  /** The four chains the application edits: FORWARD and INPUT of the filter table, the other two of the nat table. */
  datatype Chain = FORWARD | INPUT | PREROUTING | POSTROUTING

  datatype Verdict = ACCEPT | DROP

  /** What a row asks for, by kind.  An absent field is None or the empty string; the source treats both alike. */
  datatype Rule =
    | Forward(verdict: Verdict, protocol: string, src: Option<string>, dst: Option<string>, dport: Option<string>)
    | Input(verdict: Verdict, protocol: string, src: Option<string>, dport: Option<string>)
    | PortForward(
        protocol: string, extPort: Option<string>, targetIp: string, targetPort: Option<string>,
        extIface: Option<string>)
    | Masquerade(src: Option<string>, outIface: Option<string>)
    | Snat(src: Option<string>, outIface: Option<string>, snatIp: string)
    | ClientBlock(clientName: string, clientIp: string)

  /** One row of firewall_rules.  Positions are doubles in the source and exact reals here. */
  datatype Row = Row(id: int, rule: Rule, note: string, enabled: bool, position: real)

  type Table = map<int, Row>

  ghost predicate Keyed(t: Table) {
    forall id :: id in t ==> t[id].id == id
  }

  /** The comment of a live rule, in the classes that the application tells apart.
      Tracked is "pivpn-webui:<id>" with the id printed in plain decimal, and PaddedTag the same with a digit string
      that no id prints as (leading zeros): both are deleted by a rebuild, but only the first can name a row.
      BlockTag is anything starting "pivpn-webui:block", StrayTag any other "pivpn-webui:" text, Note any other text. */
  datatype Comment =
    | NoComment
    | Tracked(id: int)
    | PaddedTag(digits: string)
    | BlockTag(rest: string)
    | StrayTag(rest: string)
    | Note(text: string)

  datatype Target =
    | Jump(verdict: Verdict)
    | DnatTo(ip: string, port: Option<string>)
    | MasqueradeTarget
    | SnatTo(ip: string)
    | OtherTarget(name: string)

  /** A live rule as `iptables -S` lists it: the matchers the application reads, any others, comment and target. */
  datatype LiveRule = LiveRule(
    protocol: Option<string>, src: Option<string>, dst: Option<string>,
    inIface: Option<string>, outIface: Option<string>, dport: Option<string>,
    extra: seq<string>, comment: Comment, target: Target)

  datatype LiveChains = LiveChains(
    forward: seq<LiveRule>, input: seq<LiveRule>, prerouting: seq<LiveRule>, postrouting: seq<LiveRule>)
  {
    function At(c: Chain): seq<LiveRule> {
      match c
      case FORWARD => forward
      case INPUT => input
      case PREROUTING => prerouting
      case POSTROUTING => postrouting
    }

    function Put(c: Chain, rules: seq<LiveRule>): (r: LiveChains)
      ensures forall d :: r.At(d) == if d == c then rules else At(d)
    {
      match c
      case FORWARD => this.(forward := rules)
      case INPUT => this.(input := rules)
      case PREROUTING => this.(prerouting := rules)
      case POSTROUTING => this.(postrouting := rules)
    }
  }

  lemma SameChains(a: LiveChains, b: LiveChains)
    requires forall c :: a.At(c) == b.At(c)
    ensures a == b
  {
    assert a.At(FORWARD) == b.At(FORWARD) && a.At(INPUT) == b.At(INPUT);
    assert a.At(PREROUTING) == b.At(PREROUTING) && a.At(POSTROUTING) == b.At(POSTROUTING);
  }

  /** Which chains a rule takes part in the position order of.  Client blocks stay outside that order. */
  function ChainsFor(r: Rule): set<Chain> {
    match r
    case Input(_, _, _, _) => {INPUT}
    case Forward(_, _, _, _, _) => {FORWARD}
    case Masquerade(_, _) => {POSTROUTING}
    case Snat(_, _, _) => {POSTROUTING}
    case PortForward(_, _, _, _, _) => {PREROUTING, FORWARD}
    case ClientBlock(_, _) => {}
  }

  function Given(o: Option<string>): Option<string> {
    if o == Some("") then None else o
  }

  const PLAIN := LiveRule(None, None, None, None, None, None, [], NoComment, OtherTarget(""))

  function ProtocolMatch(p: string): Option<string> {
    if p == "all" then None else Some(p)
  }

  /** The piece of a rule that lands in one chain, before its tag is added. */
  function Piece(r: Rule, c: Chain): LiveRule {
    match r
    case Forward(v, p, src, dst, dport) =>
      PLAIN.(protocol := ProtocolMatch(p), src := Given(src), dst := Given(dst), dport := Given(dport),
             target := Jump(v))
    case Input(v, p, src, dport) =>
      PLAIN.(protocol := ProtocolMatch(p), src := Given(src), dport := Given(dport), target := Jump(v))
    case PortForward(p, ext, ip, port, iface) =>
      if c == PREROUTING then
        PLAIN.(inIface := Given(iface), protocol := Some(p), dport := ext, target := DnatTo(ip, port))
      else
        PLAIN.(protocol := Some(p), dst := Some(ip), dport := port, target := Jump(ACCEPT))
    case Masquerade(src, out) =>
      PLAIN.(src := Given(src), outIface := Given(out), target := MasqueradeTarget)
    case Snat(src, out, ip) =>
      PLAIN.(src := Given(src), outIface := Given(out), target := SnatTo(ip))
    case ClientBlock(_, ip) =>
      PLAIN.(src := Some(ip), target := Jump(DROP))
  }

  /** Can the command for this chain be built?  Both halves of a port forward need a port; with NULL in its place the
      argument list holds no string there and the command is never started. */
  predicate CanPrint(r: Rule, c: Chain) {
    r.PortForward? ==> if c == PREROUTING then r.extPort.Some? else r.targetPort.Some?
  }

  /** Every command of the rule can be built. */
  predicate Complete(r: Rule) {
    r.PortForward? ==> r.extPort.Some? && r.targetPort.Some?
  }

  /** A row printed into a chain.  Block rules are tagged by client name, every other row by its id. */
  function Printed(row: Row, c: Chain): LiveRule {
    Piece(row.rule, c).(comment :=
      if row.rule.ClientBlock? then
        BlockTag((if c == INPUT then "-in:" else ":") + row.rule.clientName)
      else Tracked(row.id))
  }

  lemma PrintedTag(row: Row, c: Chain)
    requires !row.rule.ClientBlock?
    ensures Printed(row, c).comment == Tracked(row.id)
  {
  }

  /** Rules that a rebuild deletes: every numeric tag. */
  predicate Owned(r: LiveRule) {
    r.comment.Tracked? || r.comment.PaddedTag?
  }

  predicate NotOwned(r: LiveRule) {
    !Owned(r)
  }

  // ---------- the order of rows in a chain ----------

  predicate Less(a: Row, b: Row) {
    a.position < b.position || (a.position == b.position && a.id < b.id)
  }

  ghost predicate Ascending(s: seq<Row>) {
    forall i, j :: 0 <= i < j < |s| ==> Less(s[i], s[j])
  }

  ghost predicate DistinctIds(rows: set<Row>) {
    forall a, b :: a in rows && b in rows && a.id == b.id ==> a == b
  }

  ghost predicate Least(m: Row, rows: set<Row>) {
    m in rows && forall x :: x in rows && x != m ==> Less(m, x)
  }

  /** The rows in (position, id) order. */
  ghost function Sorted(rows: set<Row>): (s: seq<Row>)
    decreases |rows|
  {
    if exists m :: Least(m, rows) then
      var m :| Least(m, rows);
      [m] + Sorted(rows - {m})
    else []
  }

  lemma {:induction false} LeastExists(rows: set<Row>) returns (m: Row)
    requires rows != {} && DistinctIds(rows)
    ensures Least(m, rows)
    decreases |rows|
  {
    var x :| x in rows;
    if y :| y in rows && y != x {
      var rest := rows - {x};
      assert y in rest;
      var n := LeastExists(rest);
      assert x.id != n.id;
      m := if Less(x, n) then x else n;
      forall z | z in rows && z != m
        ensures Less(m, z)
      {
        assert z == x || z in rest;
      }
    } else {
      m := x;
    }
  }

  lemma LeastInFront(rows: set<Row>, m: Row, rest: seq<Row>)
    requires Least(m, rows) && Ascending(rest) && Elements(rest) == rows - {m}
    ensures Ascending([m] + rest) && Elements([m] + rest) == rows
  {
    forall i | 0 <= i < |rest|
      ensures Less(m, rest[i])
    {
      assert rest[i] in Elements(rest);
    }
    hide Less;
    var s := [m] + rest;
    assert forall i :: 0 < i < |s| ==> s[i] == rest[i - 1];
    assert Elements(s) == {m} + Elements(rest);
  }

  /** Sorted lists exactly the given rows, each once, in ascending order. */
  lemma {:induction false} SortedIsAscending(rows: set<Row>)
    requires DistinctIds(rows)
    ensures Ascending(Sorted(rows)) && Elements(Sorted(rows)) == rows
    decreases |rows|
  {
    if rows == {} {
      assert Sorted(rows) == [];
    } else {
      var w := LeastExists(rows);
      var m := Sorted(rows)[0];
      assert Least(m, rows) && Sorted(rows) == [m] + Sorted(rows - {m});
      SortedIsAscending(rows - {m});
      LeastInFront(rows, m, Sorted(rows - {m}));
    }
  }

  lemma HeadIsElement<T>(s: seq<T>)
    ensures s != [] ==> s[0] in Elements(s)
  {
  }

  /** An ascending listing of a set of rows is determined by the set. */
  lemma {:induction false} AscendingUnique(a: seq<Row>, b: seq<Row>)
    requires Ascending(a) && Ascending(b) && Elements(a) == Elements(b)
    ensures a == b
  {
    forall x
      ensures x in a <==> x in b
    {
      assert x in Elements(a) <==> x in Elements(b);
    }
    if a == [] {
      HeadIsElement(b);
    } else {
      assert a[0] in b && (b == [] || b[0] in a);
      assert a[0] == b[0];
      assert forall x :: x in a[1..] <==> x in a && x != a[0];
      assert forall x :: x in b[1..] <==> x in b && x != b[0];
      AscendingUnique(a[1..], b[1..]);
      assert a == [a[0]] + a[1..] && b == [b[0]] + b[1..];
    }
  }

  lemma SortedIs(rows: set<Row>, s: seq<Row>)
    requires DistinctIds(rows) && Ascending(s) && Elements(s) == rows
    ensures Sorted(rows) == s
  {
    SortedIsAscending(rows);
    AscendingUnique(Sorted(rows), s);
  }

  function EnabledRows(t: Table): set<Row> {
    set id | id in t && t[id].enabled :: t[id]
  }

  /** The enabled rows that take part in a chain. */
  function EnabledIn(t: Table, c: Chain): set<Row> {
    set id | id in t && t[id].enabled && c in ChainsFor(t[id].rule) :: t[id]
  }

  ghost function Ordered(t: Table, c: Chain): seq<Row> {
    Sorted(EnabledIn(t, c))
  }

  lemma EnabledDistinct(t: Table, c: Chain)
    requires Keyed(t)
    ensures DistinctIds(EnabledIn(t, c))
  {
  }

  /** Membership, order and uniqueness of the chain order in one place. */
  lemma OrderedFacts(t: Table, c: Chain)
    requires Keyed(t)
    ensures Ascending(Ordered(t, c))
    ensures Elements(Ordered(t, c)) == EnabledIn(t, c)
    ensures forall r :: r in Ordered(t, c) <==> r.id in t && t[r.id] == r && r.enabled && c in ChainsFor(r.rule)
  {
    EnabledDistinct(t, c);
    SortedIsAscending(EnabledIn(t, c));
    assert forall r :: r in Ordered(t, c) <==> r in Elements(Ordered(t, c));
  }

  lemma OrderedIs(t: Table, c: Chain, s: seq<Row>)
    requires Keyed(t) && Ascending(s)
    requires forall r :: r in s <==> r.id in t && t[r.id] == r && r.enabled && c in ChainsFor(r.rule)
    ensures Ordered(t, c) == s
  {
    EnabledDistinct(t, c);
    assert Elements(s) == EnabledIn(t, c);
    SortedIs(EnabledIn(t, c), s);
  }

  /** Every row of an ordered chain, printed into that chain. */
  function PrintAll(rows: seq<Row>, c: Chain): (s: seq<LiveRule>) {
    Map((r: Row) => Printed(r, c), rows)
  }

  lemma PrintAllConcat(a: seq<Row>, b: seq<Row>, c: Chain)
    ensures PrintAll(a + b, c) == PrintAll(a, c) + PrintAll(b, c)
  {
    assert PrintAll(a + b, c) == PrintAll(a, c) + PrintAll(b, c);
  }
}
