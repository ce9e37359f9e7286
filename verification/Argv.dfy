/** The iptables command lines the application builds, and its parser for listed rules. */
module Argv {
  import opened Wrappers
  import opened Sequences
  import opened Rules
  import opened Discovery

  // ---------- the parser ----------

  /** The flat dict that _parse_rule_spec returns. */
  type Parsed = map<string, string>

  /** How far one turn of the parser's loop moves, and what it records. */
  function Turn(tokens: seq<string>, i: nat, d: Parsed): (r: (nat, Parsed))
    requires i < |tokens|
    ensures i < r.0 <= |tokens|
  {
    var n, tok := |tokens|, tokens[i];
    if tok == "-s" && i + 1 < n then (i + 2, d["src" := tokens[i + 1]])
    else if tok == "-d" && i + 1 < n then (i + 2, d["dst" := tokens[i + 1]])
    else if tok == "-p" && i + 1 < n then (i + 2, d["protocol" := tokens[i + 1]])
    else if tok == "-i" && i + 1 < n then (i + 2, d["in_iface" := tokens[i + 1]])
    else if tok == "-o" && i + 1 < n then (i + 2, d["out_iface" := tokens[i + 1]])
    else if tok == "--dport" && i + 1 < n then (i + 2, d["dport" := tokens[i + 1]])
    else if tok == "-m" && i + 1 < n then
      if tokens[i + 1] == "comment" && i + 3 < n && tokens[i + 2] == "--comment" then
        (i + 4, d["comment" := tokens[i + 3]])
      else (i + 2, d)
    else if tok == "-j" && i + 1 < n then
      var e := d["action" := tokens[i + 1]];
      if tokens[i + 1] == "DNAT" && i + 3 < n && tokens[i + 2] == "--to-destination" then
        (i + 4, e["to_destination" := tokens[i + 3]])
      else if tokens[i + 1] == "SNAT" && i + 3 < n && tokens[i + 2] == "--to-source" then
        (i + 4, e["to_source" := tokens[i + 3]])
      else (i + 2, e)
    else (i + 1, d)
  }

  function ParseFrom(tokens: seq<string>, i: nat, d: Parsed): Parsed
    requires i <= |tokens|
    decreases |tokens| - i
  {
    if i == |tokens| then d
    else
      var (j, e) := Turn(tokens, i, d);
      ParseFrom(tokens, j, e)
  }

  /** Tokens 0 and 1 are -A and the chain name. */
  function Parse(tokens: seq<string>): Parsed {
    if |tokens| < 2 then map[] else ParseFrom(tokens, 2, map[])
  }

  /** The loop of _parse_rule_spec, which updates `d` and `i`. */
  method ParseRuleSpec(tokens: seq<string>) returns (d: Parsed)
    ensures d == Parse(tokens)
  {
    d := map[];
    var i, n := 2, |tokens|;
    while i < n
      invariant 2 <= i && (i <= n || n < 2)
      invariant n < 2 ==> d == map[]
      invariant n >= 2 ==> ParseFrom(tokens, i, d) == Parse(tokens)
    {
      var (j, e) := Turn(tokens, i, d);
      i, d := j, e;
    }
  }

  // ---------- matcher groups ----------

  /** The token groups a listed rule is made of, in whatever order. */
  datatype Group =
    | Flag(flag: string, value: string)
    | Module(name: string)
    | Remark(text: string)
    | Jump(target: string)
    | JumpTo(target: string, option: string, value: string)

  /** The key a matcher flag is recorded under. */
  function FlagKey(f: string): Option<string> {
    if f == "-s" then Some("src")
    else if f == "-d" then Some("dst")
    else if f == "-p" then Some("protocol")
    else if f == "-i" then Some("in_iface")
    else if f == "-o" then Some("out_iface")
    else if f == "--dport" then Some("dport")
    else None
  }

  function OptionKey(target: string, o: string): Option<string> {
    if target == "DNAT" && o == "--to-destination" then Some("to_destination")
    else if target == "SNAT" && o == "--to-source" then Some("to_source")
    else None
  }

  predicate WellFormed(g: Group) {
    match g
    case Flag(f, _) => FlagKey(f).Some?
    case Module(name) => name != "comment"
    case JumpTo(t, o, _) => OptionKey(t, o).Some?
    case _ => true
  }

  function Tokens(g: Group): seq<string> {
    match g
    case Flag(f, v) => [f, v]
    case Module(name) => ["-m", name]
    case Remark(text) => ["-m", "comment", "--comment", text]
    case Jump(t) => ["-j", t]
    case JumpTo(t, o, v) => ["-j", t, o, v]
  }

  function AllTokens(gs: seq<Group>): seq<string> {
    if gs == [] then [] else Tokens(gs[0]) + AllTokens(gs[1..])
  }

  /** What a group says. */
  function Says(g: Group): Parsed {
    match g
    case Flag(f, v) => if FlagKey(f).Some? then map[FlagKey(f).value := v] else map[]
    case Module(_) => map[]
    case Remark(text) => map["comment" := text]
    case Jump(t) => map["action" := t]
    case JumpTo(t, o, v) =>
      if OptionKey(t, o).Some? then map["action" := t, OptionKey(t, o).value := v] else map[]
  }

  function AllSay(d: Parsed, gs: seq<Group>): Parsed
    decreases |gs|
  {
    if gs == [] then d else AllSay(d + Says(gs[0]), gs[1..])
  }

  /** Tokens that continue a group rather than start one. */
  predicate Continues(tok: string) {
    tok == "--comment" || tok == "--to-destination" || tok == "--to-source"
  }

  lemma GroupStart(g: Group)
    requires WellFormed(g)
    ensures Tokens(g) != [] && !Continues(Tokens(g)[0])
  {
  }

  /** No group starts with a token that could be read as the tail of the group before it. */
  lemma GroupStarts(gs: seq<Group>)
    requires forall g :: g in gs ==> WellFormed(g)
    ensures AllTokens(gs) != [] ==> !Continues(AllTokens(gs)[0])
  {
    hide WellFormed, Tokens, Continues;
    if gs != [] {
      assert gs[0] in gs;
      GroupStart(gs[0]);
      assert AllTokens(gs)[0] == Tokens(gs[0])[0];
    }
  }

  lemma TurnFlag(tokens: seq<string>, b: nat, d: Parsed)
    requires b + 1 < |tokens| && FlagKey(tokens[b]).Some?
    ensures Turn(tokens, b, d) == (b + 2, d[FlagKey(tokens[b]).value := tokens[b + 1]])
  {
  }

  lemma TurnModule(tokens: seq<string>, b: nat, d: Parsed)
    requires b + 1 < |tokens| && tokens[b] == "-m"
    ensures Turn(tokens, b, d)
            == if tokens[b + 1] == "comment" && b + 3 < |tokens| && tokens[b + 2] == "--comment"
               then (b + 4, d["comment" := tokens[b + 3]]) else (b + 2, d)
  {
  }

  lemma TurnJump(tokens: seq<string>, b: nat, d: Parsed)
    requires b + 1 < |tokens| && tokens[b] == "-j"
    requires b + 2 < |tokens| ==> !Continues(tokens[b + 2])
    ensures Turn(tokens, b, d) == (b + 2, d["action" := tokens[b + 1]])
  {
  }

  lemma TurnJumpTo(tokens: seq<string>, b: nat, d: Parsed)
    requires b + 3 < |tokens| && tokens[b] == "-j" && OptionKey(tokens[b + 1], tokens[b + 2]).Some?
    ensures Turn(tokens, b, d)
            == (b + 4, d["action" := tokens[b + 1]][OptionKey(tokens[b + 1], tokens[b + 2]).value := tokens[b + 3]])
  {
  }

  lemma OneUpdate(d: Parsed, k: string, v: string)
    ensures d[k := v] == d + map[k := v]
  {
  }

  lemma TwoUpdates(d: Parsed, k: string, v: string, l: string, w: string)
    ensures d[k := v][l := w] == d + map[k := v, l := w]
  {
  }

  /** One turn at the start of a group, in a listing that holds the group there. */
  lemma TurnAtGroup(tokens: seq<string>, b: nat, g: Group, d: Parsed)
    requires WellFormed(g) && b + |Tokens(g)| <= |tokens|
    requires forall k :: 0 <= k < |Tokens(g)| ==> tokens[b + k] == Tokens(g)[k]
    requires b + |Tokens(g)| < |tokens| ==> !Continues(tokens[b + |Tokens(g)|])
    ensures Turn(tokens, b, d) == (b + |Tokens(g)|, d + Says(g))
  {
    hide Turn, Continues, FlagKey, OptionKey;
    match g {
      case Flag(f, v) =>
        assert Tokens(g)[0] == f && Tokens(g)[1] == v;
        TurnFlag(tokens, b, d);
        OneUpdate(d, FlagKey(f).value, v);
      case Module(name) =>
        assert Tokens(g)[0] == "-m" && Tokens(g)[1] == name;
        TurnModule(tokens, b, d);
        assert d + Says(g) == d;
      case Remark(text) =>
        assert Tokens(g)[0] == "-m" && Tokens(g)[1] == "comment" && Tokens(g)[2] == "--comment" && Tokens(g)[3] == text;
        TurnModule(tokens, b, d);
        OneUpdate(d, "comment", text);
      case Jump(t) =>
        assert Tokens(g)[0] == "-j" && Tokens(g)[1] == t;
        TurnJump(tokens, b, d);
        OneUpdate(d, "action", t);
      case JumpTo(t, o, v) =>
        assert Tokens(g)[0] == "-j" && Tokens(g)[1] == t && Tokens(g)[2] == o && Tokens(g)[3] == v;
        TurnJumpTo(tokens, b, d);
        TwoUpdates(d, "action", t, OptionKey(t, o).value, v);
    }
  }

  lemma TurnReadsGroup(before: seq<string>, g: Group, rest: seq<string>, d: Parsed)
    requires WellFormed(g)
    requires rest != [] ==> !Continues(rest[0])
    ensures var tokens := before + Tokens(g) + rest;
            Turn(tokens, |before|, d) == (|before| + |Tokens(g)|, d + Says(g))
  {
    hide Turn, Tokens, Says, WellFormed, Continues;
    var tokens, b := before + Tokens(g) + rest, |before|;
    assert forall k :: 0 <= k < |Tokens(g)| ==> tokens[b + k] == Tokens(g)[k];
    assert rest != [] ==> tokens[b + |Tokens(g)|] == rest[0];
    TurnAtGroup(tokens, b, g, d);
  }

  /** The parser reads any sequence of groups, in any order, one group at a time. */
  lemma {:induction false} ParseReadsGroups(before: seq<string>, gs: seq<Group>, d: Parsed)
    requires forall g :: g in gs ==> WellFormed(g)
    ensures ParseFrom(before + AllTokens(gs), |before|, d) == AllSay(d, gs)
    decreases |gs|
  {
    hide Turn, WellFormed, Tokens, Continues, Says;
    var tokens := before + AllTokens(gs);
    if gs == [] {
      assert tokens == before;
    } else {
      assert gs[0] in gs;
      GroupStart(gs[0]);
      var rest := AllTokens(gs[1..]);
      GroupStarts(gs[1..]);
      assert tokens == before + Tokens(gs[0]) + rest;
      TurnReadsGroup(before, gs[0], rest, d);
      ParseReadsGroups(before + Tokens(gs[0]), gs[1..], d + Says(gs[0]));
    }
  }

  // ---------- order does not matter ----------

  /** What a group is about. */
  function Slot(g: Group): string {
    match g
    case Flag(f, _) => if FlagKey(f).Some? then FlagKey(f).value else ""
    case Module(_) => ""
    case Remark(_) => "comment"
    case Jump(_) => "action"
    case JumpTo(_, _, _) => "action"
  }

  predicate Apart(g: Group, h: Group) {
    g.Module? || h.Module? || Slot(g) != Slot(h)
  }

  /** No two groups are about the same thing. */
  ghost predicate OneEach(gs: seq<Group>) {
    gs == [] || ((forall h :: h in gs[1..] ==> Apart(gs[0], h)) && OneEach(gs[1..]))
  }

  predicate Has(p: Parsed, k: string, v: string) {
    k in p && p[k] == v
  }

  lemma ApartKeys(g: Group, h: Group)
    requires WellFormed(g) && WellFormed(h) && Apart(g, h)
    ensures Says(g).Keys !! Says(h).Keys
  {
  }

  lemma HasUnion(d: Parsed, e: Parsed, k: string, v: string)
    requires d.Keys !! e.Keys
    ensures Has(d + e, k, v) <==> Has(d, k, v) || Has(e, k, v)
  {
  }

  ghost predicate SomeSays(gs: seq<Group>, k: string, v: string) {
    exists g :: g in gs && Has(Says(g), k, v)
  }

  lemma {:induction false} SayLookup(d: Parsed, gs: seq<Group>, k: string, v: string)
    requires OneEach(gs) && forall g :: g in gs ==> WellFormed(g) && d.Keys !! Says(g).Keys
    ensures Has(AllSay(d, gs), k, v) <==> Has(d, k, v) || SomeSays(gs, k, v)
    decreases |gs|
  {
    hide Says, WellFormed, Apart, Has;
    if gs != [] {
      var rest, e := gs[1..], d + Says(gs[0]);
      assert gs[0] in gs;
      forall g | g in rest
        ensures g in gs && e.Keys !! Says(g).Keys
      {
        ApartKeys(gs[0], g);
      }
      SayLookup(e, rest, k, v);
      HasUnion(d, Says(gs[0]), k, v);
      assert forall g :: g in gs <==> g == gs[0] || g in rest;
    }
  }

  lemma SameEntries(a: Parsed, b: Parsed)
    requires forall k, v :: Has(a, k, v) <==> Has(b, k, v)
    ensures a == b
  {
    forall k | k in a
      ensures k in b && b[k] == a[k]
    {
      assert Has(a, k, a[k]);
    }
    forall k | k in b
      ensures k in a
    {
      assert Has(b, k, b[k]);
    }
  }

  /** Same matchers, any order, any number of extra "-m tcp" style modules: the parser returns the same dict. */
  lemma ParseIgnoresOrder(chain: string, gs: seq<Group>, hs: seq<Group>)
    requires (forall g :: g in gs ==> WellFormed(g)) && (forall g :: g in hs ==> WellFormed(g))
    requires OneEach(gs) && OneEach(hs)
    requires forall g: Group :: !g.Module? ==> (g in gs <==> g in hs)
    ensures Parse(["-A", chain] + AllTokens(hs)) == Parse(["-A", chain] + AllTokens(gs)) == AllSay(map[], gs)
  {
    hide WellFormed, OneEach;
    ParseReadsGroups(["-A", chain], gs, map[]);
    ParseReadsGroups(["-A", chain], hs, map[]);
    var a, b := AllSay(map[], gs), AllSay(map[], hs);
    forall k, v
      ensures Has(a, k, v) <==> Has(b, k, v)
    {
      SayLookup(map[], gs, k, v);
      SayLookup(map[], hs, k, v);
      SameSpeakers(gs, hs, k, v);
    }
    SameEntries(a, b);
  }

  lemma SameSpeakers(gs: seq<Group>, hs: seq<Group>, k: string, v: string)
    requires forall g: Group :: !g.Module? ==> (g in gs <==> g in hs)
    ensures SomeSays(gs, k, v) <==> SomeSays(hs, k, v)
  {
    forall g: Group | g.Module?
      ensures !Has(Says(g), k, v)
    {
    }
  }

  // ---------- comment tags ----------

  function Digit(n: nat): char
    requires n < 10
  {
    ("0123456789")[n]
  }

  predicate IsDigit(c: char) {
    '0' <= c <= '9'
  }

  function Decimal(n: nat): (s: string)
    ensures s != "" && forall i :: 0 <= i < |s| ==> IsDigit(s[i])
  {
    if n < 10 then [Digit(n)] else Decimal(n / 10) + [Digit(n % 10)]
  }

  function Number(s: string): nat
    requires forall i :: 0 <= i < |s| ==> IsDigit(s[i])
  {
    if s == "" then 0
    else
      assert IsDigit(s[|s| - 1]);
      Number(s[..|s| - 1]) * 10 + (s[|s| - 1] as int - '0' as int)
  }

  lemma {:induction false} DecimalReadsBack(n: nat)
    ensures Number(Decimal(n)) == n
  {
    if n >= 10 {
      DecimalReadsBack(n / 10);
      assert Decimal(n)[..|Decimal(n)| - 1] == Decimal(n / 10);
    } else {
      assert Decimal(n)[..0] == "";
    }
  }

  const OWN_PREFIX := "pivpn-webui:"
  const BLOCK_PREFIX := "pivpn-webui:block"

  /** The classes of comment that rebuild and discovery tell apart. */
  function CommentOf(text: string): Comment {
    if text == "" then NoComment
    else if BLOCK_PREFIX <= text then BlockTag(text[|BLOCK_PREFIX|..])
    else if OWN_PREFIX <= text then
      var rest := text[|OWN_PREFIX|..];
      if rest != "" && forall i :: 0 <= i < |rest| ==> IsDigit(rest[i]) then
        if Decimal(Number(rest)) == rest then Tracked(Number(rest)) else PaddedTag(rest)
      else StrayTag(rest)
    else Note(text)
  }

  function TagText(row: Row, c: Chain): string {
    if row.rule.ClientBlock? then
      (if c == INPUT then "pivpn-webui:block-in:" else "pivpn-webui:block:") + row.rule.clientName
    else OWN_PREFIX + Decimal(if row.id >= 0 then row.id else 0)
  }

  /** A tag is read back as the row it names. */
  lemma TagReadsBack(row: Row, c: Chain)
    requires row.id >= 0
    ensures CommentOf(TagText(row, c)) == Printed(row, c).comment
  {
    var text := TagText(row, c);
    if row.rule.ClientBlock? {
      assert BLOCK_PREFIX <= text;
      assert text[|BLOCK_PREFIX|..] == (if c == INPUT then "-in:" else ":") + row.rule.clientName;
    } else {
      var d := Decimal(row.id);
      DecimalReadsBack(row.id);
      assert text[|OWN_PREFIX|] == d[0] && BLOCK_PREFIX[|OWN_PREFIX|] == 'b';
      assert !(BLOCK_PREFIX <= text);
      assert text[|OWN_PREFIX|..] == d;
    }
  }

  /** Every other comment is told apart by its text alone: what does not begin with the application's prefix is a note,
      a block tag has its own prefix, and a rebuild takes the prefix with digits and nothing else behind it. */
  lemma CommentsToldApart(text: string)
    ensures text != "" && !("pivpn-webui:" <= text) <==> CommentOf(text) == Note(text)
    ensures "pivpn-webui:block" <= text <==> CommentOf(text).BlockTag?
    ensures (CommentOf(text).Tracked? || CommentOf(text).PaddedTag?)
            <==> |text| > 12 && text[..12] == "pivpn-webui:" && forall i :: 12 <= i < |text| ==> '0' <= text[i] <= '9'
    ensures CommentOf(text).Tracked? ==>
              CommentOf(text).id >= 0 && text == "pivpn-webui:" + Decimal(CommentOf(text).id)
  {
    assert |OWN_PREFIX| == 12 && BLOCK_PREFIX[..12] == OWN_PREFIX && BLOCK_PREFIX[12] == 'b';
    if OWN_PREFIX <= text {
      var rest := text[12..];
      assert text == OWN_PREFIX + rest;
      assert forall i :: 0 <= i < |rest| ==> rest[i] == text[i + 12];
      assert forall i :: 12 <= i < |text| ==> text[i] == rest[i - 12];
    }
  }

  // ---------- printing ----------

  function Opt(flag: string, o: Option<string>): seq<Group> {
    if Given(o).Some? then [Flag(flag, o.value)] else []
  }

  /** The port of a port forward, which must be there for the command to be built. */
  function Port(o: Option<string>): seq<Group> {
    if o.Some? then [Flag("--dport", o.value)] else []
  }

  function VerdictText(v: Verdict): string {
    if v == ACCEPT then "ACCEPT" else "DROP"
  }

  function Verb(t: Target): Group {
    match t
    case Jump(v) => Group.Jump(VerdictText(v))
    case DnatTo(ip, port) => JumpTo("DNAT", "--to-destination", ip + ":" + OrElse(port, ""))
    case MasqueradeTarget => Group.Jump("MASQUERADE")
    case SnatTo(ip) => JumpTo("SNAT", "--to-source", ip)
    case OtherTarget(name) => Group.Jump(name)
  }

  /** The groups of one command of a row, in the order its argv builder emits them. */
  function Groups(row: Row, c: Chain): seq<Group> {
    var tag := Remark(TagText(row, c));
    var tail := [tag, Verb(Piece(row.rule, c).target)];
    match row.rule
    case Forward(_, p, src, dst, dport) =>
      Opt("-p", ProtocolMatch(p)) + (Opt("-s", src) + (Opt("-d", dst) + (Opt("--dport", dport) + tail)))
    case Input(_, p, src, dport) =>
      Opt("-p", ProtocolMatch(p)) + (Opt("-s", src) + (Opt("--dport", dport) + tail))
    case PortForward(p, ext, ip, port, iface) =>
      if c == PREROUTING then Opt("-i", iface) + ([Flag("-p", p)] + (Port(ext) + tail))
      else [Flag("-p", p)] + ([Flag("-d", ip)] + (Port(port) + tail))
    case Masquerade(src, out) => Opt("-s", src) + (Opt("-o", out) + tail)
    case Snat(src, out, _) => Opt("-s", src) + (Opt("-o", out) + tail)
    case ClientBlock(_, ip) => [Flag("-s", ip)] + tail
  }

  function ChainName(c: Chain): string {
    match c
    case FORWARD => "FORWARD"
    case INPUT => "INPUT"
    case PREROUTING => "PREROUTING"
    case POSTROUTING => "POSTROUTING"
  }

  // ---------- what a parsed dict means ----------

  function Get(p: Parsed, key: string): Option<string> {
    if key in p then Some(p[key]) else None
  }

  /** str.partition(":"): the part before the first colon, and the part behind it if there is one. */
  function Partition(s: string): (string, Option<string>) {
    if s == "" then ("", None)
    else if s[0] == ':' then ("", Some(s[1..]))
    else
      var (head, tail) := Partition(s[1..]);
      ([s[0]] + head, tail)
  }

  lemma {:induction false} PartitionSplits(a: string, b: string)
    requires ':' !in a
    ensures Partition(a + ":" + b) == (a, Some(b))
  {
    var s := a + ":" + b;
    if a == "" {
      assert s[0] == ':' && s[1..] == b;
    } else {
      assert s[0] == a[0] && s[1..] == a[1..] + ":" + b;
      PartitionSplits(a[1..], b);
      assert [a[0]] + a[1..] == a;
    }
  }

  function TargetOf(p: Parsed): Target {
    match Get(p, "action")
    case None => OtherTarget("")
    case Some(a) =>
      if a == "ACCEPT" then Target.Jump(ACCEPT)
      else if a == "DROP" then Target.Jump(DROP)
      else if a == "DNAT" && Given(Get(p, "to_destination")).Some? then
        DnatTo(Partition(p["to_destination"]).0, Partition(p["to_destination"]).1)
      else if a == "MASQUERADE" then MasqueradeTarget
      else if a == "SNAT" && Given(Get(p, "to_source")).Some? then SnatTo(p["to_source"])
      else OtherTarget(a)
  }

  /** The structured form of a listed rule all of whose matchers the parser knows. */
  function LiveOf(p: Parsed): LiveRule {
    LiveRule(Get(p, "protocol"), Get(p, "src"), Get(p, "dst"), Get(p, "in_iface"), Get(p, "out_iface"), Get(p, "dport"),
             [], if "comment" in p then CommentOf(p["comment"]) else NoComment, TargetOf(p))
  }

  /** _rule_from_parsed on the dict itself. */
  function RuleFromParsed(c: Chain, p: Parsed): Option<Rule> {
    var action := Get(p, "action");
    var verdict :=
      if action == Some("ACCEPT") then Some(ACCEPT)
      else if action == Some("DROP") then Some(DROP)
      else None;
    if c == FORWARD && verdict.Some? then
      Some(Forward(verdict.value, OrElse(Get(p, "protocol"), "all"), Get(p, "src"), Get(p, "dst"), Get(p, "dport")))
    else if c == INPUT && verdict.Some? then
      Some(Input(verdict.value, OrElse(Get(p, "protocol"), "all"), Get(p, "src"), Get(p, "dport")))
    else if c == PREROUTING && action == Some("DNAT") && Given(Get(p, "to_destination")).Some? then
      var (ip, port) := Partition(p["to_destination"]);
      Some(PortForward(OrElse(Get(p, "protocol"), "tcp"), Get(p, "dport"), ip,
                       if Given(port).Some? then port else Get(p, "dport"), Some(OrElse(Get(p, "in_iface"), ""))))
    else if c == POSTROUTING && action == Some("MASQUERADE") then
      Some(Masquerade(Get(p, "src"), Get(p, "out_iface")))
    else if c == POSTROUTING && action == Some("SNAT") && Given(Get(p, "to_source")).Some? then
      Some(Snat(Get(p, "src"), Get(p, "out_iface"), p["to_source"]))
    else None
  }

  /** Reading the dict and reading the structured rule give the same row. */
  lemma DictAndStructureAgree(c: Chain, p: Parsed)
    ensures RuleFromParsed(c, p) == Adopt(c, LiveOf(p))
  {
  }

  // ---------- round trips ----------

  /** What the add forms guarantee of a row's fields. */
  predicate Printable(r: Rule) {
    match r
    case PortForward(_, _, ip, _, _) => ':' !in ip && Complete(r)
    case Snat(_, _, ip) => ip != ""
    case Forward(_, p, _, _, _) => p != ""
    case Input(_, p, _, _) => p != ""
    case _ => true
  }

  ghost predicate Sound(gs: seq<Group>) {
    OneEach(gs) && forall g :: g in gs ==> WellFormed(g)
  }

  function Slots(gs: seq<Group>): set<string> {
    set g | g in gs :: Slot(g)
  }

  lemma SoundTail(row: Row, c: Chain, t: Target)
    ensures Sound([Remark(TagText(row, c)), Verb(t)])
            && Slots([Remark(TagText(row, c)), Verb(t)]) == {"comment", "action"}
  {
    var gs := [Remark(TagText(row, c)), Verb(t)];
    assert gs[1..] == [Verb(t)] && gs[1..][1..] == [];
    assert OneEach(gs[1..]);
    assert Slot(gs[0]) == "comment" && Slot(gs[1]) == "action";
    assert gs[0] in gs && gs[1] in gs;
  }

  /** d with an entry for a flag's field, if the field is given. */
  function With(d: Parsed, key: string, o: Option<string>): Parsed {
    if Given(o).Some? then d[key := o.value] else d
  }

  function WithPort(d: Parsed, o: Option<string>): Parsed {
    if o.Some? then d["dport" := o.value] else d
  }

  lemma SoundPrepend(flag: string, v: string, gs: seq<Group>, d: Parsed)
    requires Sound(gs) && FlagKey(flag).Some? && FlagKey(flag).value !in Slots(gs)
    ensures Sound([Flag(flag, v)] + gs) && Slots([Flag(flag, v)] + gs) <= {FlagKey(flag).value} + Slots(gs)
    ensures AllSay(d, [Flag(flag, v)] + gs) == AllSay(d[FlagKey(flag).value := v], gs)
  {
    var all := [Flag(flag, v)] + gs;
    assert all[1..] == gs && all[0] == Flag(flag, v);
    forall h | h in gs
      ensures Apart(all[0], h)
    {
      assert Slot(h) in Slots(gs);
    }
    assert d + Says(all[0]) == d[FlagKey(flag).value := v];
    assert forall g :: g in all <==> g == all[0] || g in gs;
  }

  lemma OptPrepend(flag: string, o: Option<string>, gs: seq<Group>, d: Parsed)
    requires Sound(gs) && FlagKey(flag).Some? && FlagKey(flag).value !in Slots(gs)
    ensures Sound(Opt(flag, o) + gs) && Slots(Opt(flag, o) + gs) <= {FlagKey(flag).value} + Slots(gs)
    ensures AllSay(d, Opt(flag, o) + gs) == AllSay(With(d, FlagKey(flag).value, o), gs)
  {
    if Given(o).Some? {
      SoundPrepend(flag, o.value, gs, d);
    } else {
      assert Opt(flag, o) + gs == gs;
    }
  }

  lemma PortPrepend(o: Option<string>, gs: seq<Group>, d: Parsed)
    requires Sound(gs) && "dport" !in Slots(gs)
    ensures Sound(Port(o) + gs) && Slots(Port(o) + gs) <= {"dport"} + Slots(gs)
    ensures AllSay(d, Port(o) + gs) == AllSay(WithPort(d, o), gs)
  {
    if o.Some? {
      SoundPrepend("--dport", o.value, gs, d);
    } else {
      assert Port(o) + gs == gs;
    }
  }

  /** The entries of the fields, before comment and target. */
  function Fields(r: Rule, c: Chain): Parsed {
    match r
    case Forward(_, p, src, dst, dport) =>
      With(With(With(With(map[], "protocol", ProtocolMatch(p)), "src", src), "dst", dst), "dport", dport)
    case Input(_, p, src, dport) =>
      With(With(With(map[], "protocol", ProtocolMatch(p)), "src", src), "dport", dport)
    case PortForward(p, ext, ip, port, iface) =>
      if c == PREROUTING then WithPort(With(map[], "in_iface", iface)["protocol" := p], ext)
      else WithPort((map["protocol" := p])["dst" := ip], port)
    case Masquerade(src, out) => With(With(map[], "src", src), "out_iface", out)
    case Snat(src, out, _) => With(With(map[], "src", src), "out_iface", out)
    case ClientBlock(_, ip) => map["src" := ip]
  }

  /** A row's groups are about pairwise different things, and together they say its fields, its tag and its target. */
  lemma GroupsSayFields(row: Row, c: Chain)
    ensures Sound(Groups(row, c))
    ensures AllSay(map[], Groups(row, c))
         == Fields(row.rule, c) + map["comment" := TagText(row, c)] + Says(Verb(Piece(row.rule, c).target))
  {
    hide Sound, Slots, With, AllSay, TagText, Opt, Port, WithPort;
    var t := Piece(row.rule, c).target;
    var tail := [Remark(TagText(row, c)), Verb(t)];
    SoundTail(row, c, t);
    TailSays(row, c, Fields(row.rule, c));
    match row.rule {
      case Forward(_, p, src, dst, dport) => ForwardGroups(p, src, dst, dport, tail);
      case Input(_, p, src, dport) => InputGroups(p, src, dport, tail);
      case PortForward(p, ext, ip, port, iface) => PortForwardGroups(p, ext, ip, port, iface, tail);
      case Masquerade(src, out) => SourceGroups(src, out, tail);
      case Snat(src, out, _) => SourceGroups(src, out, tail);
      case ClientBlock(_, ip) => SoundPrepend("-s", ip, tail, map[]);
    }
  }

  /** Comment and target, which every rule ends with. */
  ghost predicate Ending(tail: seq<Group>) {
    Sound(tail) && Slots(tail) == {"comment", "action"}
  }

  lemma ForwardGroups(p: string, src: Option<string>, dst: Option<string>, dport: Option<string>, tail: seq<Group>)
    requires Ending(tail)
    ensures var rest := Opt("-d", dst) + (Opt("--dport", dport) + tail);
            var gs := Opt("-p", ProtocolMatch(p)) + (Opt("-s", src) + rest);
            var d := With(With(With(map[], "protocol", ProtocolMatch(p)), "src", src), "dst", dst);
            Sound(gs) && AllSay(map[], gs) == AllSay(With(d, "dport", dport), tail)
  {
    hide Sound, Slots, With, AllSay, Opt;
    var d1 := With(map[], "protocol", ProtocolMatch(p));
    var d2 := With(d1, "src", src);
    OptPrepend("--dport", dport, tail, With(d2, "dst", dst));
    OptPrepend("-d", dst, Opt("--dport", dport) + tail, d2);
    OptPrepend("-s", src, Opt("-d", dst) + (Opt("--dport", dport) + tail), d1);
    OptPrepend("-p", ProtocolMatch(p), Opt("-s", src) + (Opt("-d", dst) + (Opt("--dport", dport) + tail)), map[]);
  }

  lemma InputGroups(p: string, src: Option<string>, dport: Option<string>, tail: seq<Group>)
    requires Ending(tail)
    ensures var gs := Opt("-p", ProtocolMatch(p)) + (Opt("-s", src) + (Opt("--dport", dport) + tail));
            var d := With(With(With(map[], "protocol", ProtocolMatch(p)), "src", src), "dport", dport);
            Sound(gs) && AllSay(map[], gs) == AllSay(d, tail)
  {
    hide Sound, Slots, With, AllSay, Opt;
    var d1 := With(map[], "protocol", ProtocolMatch(p));
    OptPrepend("--dport", dport, tail, With(d1, "src", src));
    OptPrepend("-s", src, Opt("--dport", dport) + tail, d1);
    OptPrepend("-p", ProtocolMatch(p), Opt("-s", src) + (Opt("--dport", dport) + tail), map[]);
  }

  lemma PortForwardGroups(p: string, ext: Option<string>, ip: string, port: Option<string>, iface: Option<string>,
                          tail: seq<Group>)
    requires Ending(tail)
    ensures var gs := Opt("-i", iface) + ([Flag("-p", p)] + (Port(ext) + tail));
            Sound(gs)
            && AllSay(map[], gs) == AllSay(WithPort(With(map[], "in_iface", iface)["protocol" := p], ext), tail)
    ensures var gs := [Flag("-p", p)] + ([Flag("-d", ip)] + (Port(port) + tail));
            Sound(gs) && AllSay(map[], gs) == AllSay(WithPort((map["protocol" := p])["dst" := ip], port), tail)
  {
    hide Sound, Slots, With, AllSay, Opt, Port, WithPort;
    var d := With(map[], "in_iface", iface);
    PortPrepend(ext, tail, d["protocol" := p]);
    SoundPrepend("-p", p, Port(ext) + tail, d);
    OptPrepend("-i", iface, [Flag("-p", p)] + (Port(ext) + tail), map[]);
    PortPrepend(port, tail, (map["protocol" := p])["dst" := ip]);
    SoundPrepend("-d", ip, Port(port) + tail, map["protocol" := p]);
    SoundPrepend("-p", p, [Flag("-d", ip)] + (Port(port) + tail), map[]);
  }

  lemma SourceGroups(src: Option<string>, out: Option<string>, tail: seq<Group>)
    requires Ending(tail)
    ensures var gs := Opt("-s", src) + (Opt("-o", out) + tail);
            Sound(gs) && AllSay(map[], gs) == AllSay(With(With(map[], "src", src), "out_iface", out), tail)
  {
    hide Sound, Slots, With, AllSay, Opt;
    OptPrepend("-o", out, tail, With(map[], "src", src));
    OptPrepend("-s", src, Opt("-o", out) + tail, map[]);
  }

  lemma TailSays(row: Row, c: Chain, d: Parsed)
    ensures AllSay(d, [Remark(TagText(row, c)), Verb(Piece(row.rule, c).target)])
         == d + map["comment" := TagText(row, c)] + Says(Verb(Piece(row.rule, c).target))
  {
    hide Verb, TagText;
    var gs := [Remark(TagText(row, c)), Verb(Piece(row.rule, c).target)];
    assert gs[1..] == [gs[1]] && gs[1..][1..] == [];
    assert Says(gs[0]) == map["comment" := TagText(row, c)];
    assert AllSay(d, gs) == AllSay(d + Says(gs[0]), gs[1..]);
    assert AllSay(d + Says(gs[0]), gs[1..]) == AllSay(d + Says(gs[0]) + Says(gs[1]), []);
  }

  /** The target a verb is read back as. */
  lemma VerbReadsBack(p: Parsed, t: Target)
    requires t.Jump? || t.MasqueradeTarget? || (t.SnatTo? && t.ip != "") || (t.DnatTo? && t.port.Some? && ':' !in t.ip)
    ensures TargetOf(p + Says(Verb(t))) == t
  {
    if t.DnatTo? {
      PartitionSplits(t.ip, t.port.value);
    }
  }

  /** Comment and target leave the fields alone. */
  lemma Overlay(f: Parsed, text: string, t: Target)
    requires !t.OtherTarget?
    ensures var p := f + map["comment" := text] + Says(Verb(t));
            LiveOf(p) == LiveRule(Get(f, "protocol"), Get(f, "src"), Get(f, "dst"), Get(f, "in_iface"),
                                  Get(f, "out_iface"), Get(f, "dport"), [], CommentOf(text), TargetOf(p))
  {
    hide CommentOf, TargetOf;
    var p := f + map["comment" := text] + Says(Verb(t));
    assert "comment" in p && p["comment"] == text;
  }

  lemma FieldsMatch(r: Rule, c: Chain)
    requires Printable(r) && (c in ChainsFor(r) || (r.ClientBlock? && c in {FORWARD, INPUT}))
    ensures var f, piece := Fields(r, c), Piece(r, c);
            && Get(f, "protocol") == piece.protocol && Get(f, "src") == piece.src && Get(f, "dst") == piece.dst
            && Get(f, "in_iface") == piece.inIface && Get(f, "out_iface") == piece.outIface
            && Get(f, "dport") == piece.dport && piece.extra == []
  {
  }

  /** The dict of a printed row is that row's live rule. */
  lemma SaidIsPrinted(row: Row, c: Chain)
    requires row.id >= 0 && Printable(row.rule)
    requires c in ChainsFor(row.rule) || (row.rule.ClientBlock? && c in {FORWARD, INPUT})
    ensures LiveOf(AllSay(map[], Groups(row, c))) == Printed(row, c)
  {
    hide CommentOf, AllSay, Groups, TagText, Fields, Says, Verb, Get, TargetOf, LiveOf;
    var t, f, text := Piece(row.rule, c).target, Fields(row.rule, c), TagText(row, c);
    GroupsSayFields(row, c);
    TagReadsBack(row, c);
    FieldsMatch(row.rule, c);
    Overlay(f, text, t);
    VerbReadsBack(f + map["comment" := text], t);
  }

  /** Printing a row and parsing what iptables lists, with the matchers in any order and extra "-m tcp" pairs, gives the
      live rule that the chain model works with. */
  lemma PrintThenParse(row: Row, c: Chain, listed: seq<Group>)
    requires row.id >= 0 && Printable(row.rule)
    requires c in ChainsFor(row.rule) || (row.rule.ClientBlock? && c in {FORWARD, INPUT})
    requires Sound(listed) && forall g: Group :: !g.Module? ==> (g in listed <==> g in Groups(row, c))
    ensures LiveOf(Parse(["-A", ChainName(c)] + AllTokens(listed))) == Printed(row, c)
  {
    hide OneEach, WellFormed, LiveOf, Groups;
    GroupsSayFields(row, c);
    ParseIgnoresOrder(ChainName(c), Groups(row, c), listed);
    SaidIsPrinted(row, c);
  }

  // ---------- rule fields ----------

  /** A rule with every blank field written as None. */
  function Blanked(r: Rule): Rule {
    match r
    case Forward(v, p, src, dst, dport) => Forward(v, p, Given(src), Given(dst), Given(dport))
    case Input(v, p, src, dport) => Input(v, p, Given(src), Given(dport))
    case PortForward(p, ext, ip, port, iface) => PortForward(p, ext, ip, port, Given(iface))
    case Masquerade(src, out) => Masquerade(Given(src), Given(out))
    case Snat(src, out, ip) => Snat(Given(src), Given(out), ip)
    case ClientBlock(_, _) => r
  }

  /** The chain a kind is discovered in. */
  function HomeChain(r: Rule): Chain {
    match r
    case Forward(_, _, _, _, _) => FORWARD
    case Input(_, _, _, _) => INPUT
    case PortForward(_, _, _, _, _) => PREROUTING
    case _ => POSTROUTING
  }

  /** Parsing the printed command of a form-made rule gives back the same fields, blanks aside. */
  lemma RuleRoundTrip(row: Row, listed: seq<Group>)
    requires row.id >= 0 && Printable(row.rule) && !row.rule.ClientBlock?
    requires row.rule.PortForward? ==> row.rule.targetPort != Some("")
    requires var c := HomeChain(row.rule);
             Sound(listed) && forall g: Group :: !g.Module? ==> (g in listed <==> g in Groups(row, c))
    ensures var c := HomeChain(row.rule);
            var r := RuleFromParsed(c, Parse(["-A", ChainName(c)] + AllTokens(listed)));
            r.Some? && Blanked(r.value) == Blanked(row.rule)
  {
    hide Sound, Groups, Parse, RuleFromParsed, LiveOf;
    var c := HomeChain(row.rule);
    var p := Parse(["-A", ChainName(c)] + AllTokens(listed));
    PrintThenParse(row, c, listed);
    DictAndStructureAgree(c, p);
  }

  /** A DNAT target survives exactly when its address holds no colon. */
  lemma {:induction false} DnatRoundTripsIffNoColon(ip: string, port: string)
    ensures Partition(ip + ":" + port) == (ip, Some(port)) <==> ':' !in ip
  {
    if ':' !in ip {
      PartitionSplits(ip, port);
    } else {
      HeadHasNoColon(ip + ":" + port);
    }
  }

  lemma {:induction false} HeadHasNoColon(s: string)
    ensures ':' !in Partition(s).0
  {
    if s != "" && s[0] != ':' {
      HeadHasNoColon(s[1..]);
    }
  }

  // ---------- the client's reference script ----------

  datatype Line = Comment(text: string) | Command(tokens: seq<string>)

  /** The command written for one FORWARD row of a client. */
  function ScriptCommand(r: Rule, ip: string): seq<string>
    requires r.Forward?
  {
    ["iptables", "-A", "FORWARD", "-s", ip]
    + AllTokens(Opt("-p", ProtocolMatch(r.protocol))
      + (Opt("-d", r.dst) + (Opt("--dport", r.dport) + [Verb(Target.Jump(r.verdict))])))
  }

  /** The rules of a client, in list order. */
  predicate OfClient(row: Row, ip: string) {
    row.rule.Forward? && row.rule.src == Some(ip)
  }

  /** regenerate_client_script: for each row its one-line comment, if any, and its command. */
  function Script(rows: seq<Row>, ip: string): seq<Line> {
    if rows == [] then [] else RowLines(rows[0], ip) + Script(rows[1..], ip)
  }

  /** Every rule of the client has its command in the script, and directly above it its note, if it has one. */
  lemma {:induction false} ScriptHasNotes(rows: seq<Row>, ip: string, i: nat) returns (k: nat)
    requires i < |rows| && rows[i].rule.Forward? && rows[i].rule.src == Some(ip)
    ensures k < |Script(rows, ip)| && Script(rows, ip)[k] == Command(ScriptCommand(rows[i].rule, ip))
    ensures rows[i].note != "" ==> k > 0 && Script(rows, ip)[k - 1] == Line.Comment(rows[i].note)
  {
    hide ScriptCommand;
    if i == 0 {
      k := if rows[0].note != "" then 1 else 0;
    } else {
      var j := ScriptHasNotes(rows[1..], ip, i - 1);
      k := |RowLines(rows[0], ip)| + j;
    }
  }

  function RowLines(row: Row, ip: string): seq<Line> {
    if OfClient(row, ip) then
      (if row.note != "" then [Line.Comment(row.note)] else []) + [Command(ScriptCommand(row.rule, ip))]
    else []
  }

  /** _iptables_line_to_fields followed by the FORWARD or INPUT adder, its field checks given as a parameter. */
  function ImportLine(valid: Rule -> bool, tokens: seq<string>): Option<Rule> {
    if tokens == [] || tokens[0] != "iptables" then None
    else
      var args := tokens[1..];
      var args := if args != [] && args[0] == "-t" && |args| >= 2 then args[2..] else args;
      if |args| < 2 || args[0] != "-A" || args[1] !in {"FORWARD", "INPUT"} then None
      else
        var r := RuleFromParsed(if args[1] == "FORWARD" then FORWARD else INPUT, Parse(args));
        if r.Some? && valid(r.value) then r else None
  }

  /** import_rules over the script's lines: comment lines add nothing. */
  function Imported(valid: Rule -> bool, lines: seq<Line>): seq<Rule> {
    if lines == [] then []
    else
      (match lines[0]
       case Comment(_) => []
       case Command(tokens) =>
         var r := ImportLine(valid, tokens);
         if r.Some? then [r.value] else [])
      + Imported(valid, lines[1..])
  }

  function ClientRules(rows: seq<Row>, ip: string): seq<Rule> {
    if rows == [] then []
    else (if OfClient(rows[0], ip) then [Blanked(rows[0].rule)] else []) + ClientRules(rows[1..], ip)
  }

  lemma ScriptCommandParses(r: Rule, ip: string)
    requires r.Forward? && r.src == Some(ip) && ip != ""
    requires r.protocol != ""
    ensures RuleFromParsed(FORWARD, Parse(ScriptCommand(r, ip)[1..])) == Some(Blanked(r))
  {
    hide With, AllSay, Opt, Slots, Sound, AllTokens, Tokens;
    var verb := [Verb(Target.Jump(r.verdict))];
    VerbAlone(r.verdict);
    var d0: Parsed := map["src" := ip];
    var d1 := With(d0, "protocol", ProtocolMatch(r.protocol));
    var d2 := With(d1, "dst", r.dst);
    OptPrepend("--dport", r.dport, verb, d2);
    OptPrepend("-d", r.dst, Opt("--dport", r.dport) + verb, d1);
    var rest := Opt("-d", r.dst) + (Opt("--dport", r.dport) + verb);
    OptPrepend("-p", ProtocolMatch(r.protocol), rest, d0);
    var gs := Opt("-p", ProtocolMatch(r.protocol)) + rest;
    SoundPrepend("-s", ip, gs, map[]);
    var all := [Flag("-s", ip)] + gs;
    TokensPrepend("-s", ip, gs);
    assert ScriptCommand(r, ip)[1..] == ["-A", "FORWARD"] + AllTokens(all);
    SoundIs(all);
    ParseReadsGroups(["-A", "FORWARD"], all, map[]);
    VerbSays(With(d2, "dport", r.dport), r.verdict);
    FieldsBack(r, ip);
  }

  lemma SoundIs(gs: seq<Group>)
    requires Sound(gs)
    ensures forall g :: g in gs ==> WellFormed(g)
  {
  }

  lemma TokensPrepend(flag: string, v: string, gs: seq<Group>)
    ensures AllTokens([Flag(flag, v)] + gs) == [flag, v] + AllTokens(gs)
  {
    var all := [Flag(flag, v)] + gs;
    assert all[0] == Flag(flag, v) && all[1..] == gs;
  }

  lemma VerbAlone(v: Verdict)
    ensures Sound([Verb(Target.Jump(v))]) && Slots([Verb(Target.Jump(v))]) == {"action"}
  {
    var gs := [Verb(Target.Jump(v))];
    assert gs[1..] == [] && gs[0] in gs && Slot(gs[0]) == "action";
  }

  lemma VerbSays(d: Parsed, v: Verdict)
    ensures AllSay(d, [Verb(Target.Jump(v))]) == d["action" := VerdictText(v)]
  {
    var gs := [Verb(Target.Jump(v))];
    assert gs[1..] == [];
    assert d + Says(gs[0]) == d["action" := VerdictText(v)];
  }

  lemma FieldsBack(r: Rule, ip: string)
    requires r.Forward? && r.src == Some(ip) && ip != "" && r.protocol != ""
    ensures var d: Parsed := map["src" := ip];
            RuleFromParsed(FORWARD,
              With(With(With(d, "protocol", ProtocolMatch(r.protocol)), "dst", r.dst), "dport", r.dport)
                ["action" := VerdictText(r.verdict)]) == Some(Blanked(r))
  {
  }

  /** A command of a form-made FORWARD or INPUT row imports to that row's rule, with or without a table in front, unless
      the field checks refuse it; no other program's and no other chain's line imports to anything. */
  lemma CommandImportsBack(valid: Rule -> bool, row: Row, listed: seq<Group>, table: Option<string>)
    requires row.id >= 0 && Printable(row.rule) && (row.rule.Forward? || row.rule.Input?)
    requires var c := HomeChain(row.rule);
             Sound(listed) && forall g: Group :: !g.Module? ==> (g in listed <==> g in Groups(row, c))
    ensures var args := ["-A", ChainName(HomeChain(row.rule))] + AllTokens(listed);
            var r := RuleFromParsed(HomeChain(row.rule), Parse(args));
            r.Some? && Blanked(r.value) == Blanked(row.rule)
            && ImportLine(valid, ["iptables"] + (if table.Some? then ["-t", table.value] else []) + args)
               == if valid(r.value) then r else None
  {
    hide Sound, Groups, Parse, RuleFromParsed, AllTokens, Blanked;
    RuleRoundTrip(row, listed);
    var args := ["-A", ChainName(HomeChain(row.rule))] + AllTokens(listed);
    var front := if table.Some? then ["-t", table.value] else [];
    var tokens := ["iptables"] + front + args;
    assert tokens[1..] == front + args;
    assert table.Some? ==> (front + args)[2..] == args;
    assert table.None? ==> front + args == args;
  }

  lemma OthersAreSkipped(valid: Rule -> bool, tokens: seq<string>)
    ensures ImportLine(valid, tokens).Some? ==> tokens != [] && tokens[0] == "iptables"
    ensures |tokens| >= 3 && tokens[0] == "iptables" && tokens[1] == "-A" && tokens[2] in {"PREROUTING", "POSTROUTING"}
            ==> ImportLine(valid, tokens).None?
  {
  }

  /** Importing a regenerated script gives that client's enabled FORWARD rules, field for field and in the same order.
      */
  lemma {:induction false} ScriptImportsBack(valid: Rule -> bool, rows: seq<Row>, ip: string)
    requires ip != ""
    requires forall row :: row in rows && OfClient(row, ip) ==> row.rule.protocol != "" && valid(Blanked(row.rule))
    ensures Imported(valid, Script(rows, ip)) == ClientRules(rows, ip)
  {
    hide RowLines, ImportLine, Blanked, OfClient;
    if rows != [] {
      ScriptImportsBack(valid, rows[1..], ip);
      assert rows[0] in rows;
      RowImportsBack(valid, rows[0], ip, Script(rows[1..], ip));
    }
  }

  lemma {:induction false} ClientRulesAre(rows: seq<Row>, ip: string, r: Rule)
    ensures r in ClientRules(rows, ip)
            <==> exists i :: 0 <= i < |rows| && OfClient(rows[i], ip) && r == Blanked(rows[i].rule)
  {
    hide Blanked, OfClient;
    if rows != [] {
      ClientRulesAre(rows[1..], ip, r);
      if i :| 0 <= i < |rows[1..]| && OfClient(rows[1..][i], ip) && r == Blanked(rows[1..][i].rule) {
        assert rows[i + 1] == rows[1..][i];
      }
      if i :| 1 <= i < |rows| && OfClient(rows[i], ip) && r == Blanked(rows[i].rule) {
        assert rows[1..][i - 1] == rows[i];
      }
    }
  }

  /** For the rows as the table lists them: importing the client's script gives back its enabled FORWARD rules, in
      (position, id) order, and no other rule. */
  lemma TableScriptImportsBack(valid: Rule -> bool, t: Table, ip: string)
    requires Keyed(t) && ip != ""
    requires forall id :: id in t && t[id].enabled && OfClient(t[id], ip) ==>
               t[id].rule.protocol != "" && valid(Blanked(t[id].rule))
    ensures var rows := Sorted(EnabledRows(t));
            Ascending(rows) && Imported(valid, Script(rows, ip)) == ClientRules(rows, ip)
    ensures forall r :: r in Imported(valid, Script(Sorted(EnabledRows(t)), ip))
                   <==> exists id :: id in t && t[id].enabled && t[id].rule.Forward? && t[id].rule.src == Some(ip)
                                     && r == Blanked(t[id].rule)
  {
    hide Sorted, Blanked, Imported, Script, ClientRules;
    var rows := Sorted(EnabledRows(t));
    SortedIsAscending(EnabledRows(t));
    forall row
      ensures row in rows <==> row.id in t && t[row.id] == row && row.enabled
    {
      assert row in rows <==> row in Elements(rows);
    }
    ScriptImportsBack(valid, rows, ip);
    forall r
      ensures r in ClientRules(rows, ip)
         <==> exists id :: id in t && t[id].enabled && OfClient(t[id], ip) && r == Blanked(t[id].rule)
    {
      ClientRulesAre(rows, ip, r);
      if id :| id in t && t[id].enabled && OfClient(t[id], ip) && r == Blanked(t[id].rule) {
        assert t[id] in rows;
      }
      if i :| 0 <= i < |rows| && OfClient(rows[i], ip) && r == Blanked(rows[i].rule) {
        assert rows[i] in rows;
      }
    }
  }

  lemma RowImportsBack(valid: Rule -> bool, row: Row, ip: string, rest: seq<Line>)
    requires ip != "" && (OfClient(row, ip) ==> row.rule.protocol != "" && valid(Blanked(row.rule)))
    ensures Imported(valid, RowLines(row, ip) + rest)
         == (if OfClient(row, ip) then [Blanked(row.rule)] else []) + Imported(valid, rest)
  {
    hide ScriptCommand, Parse, RuleFromParsed, Imported;
    if OfClient(row, ip) {
      ScriptCommandParses(row.rule, ip);
      CommandStarts(row.rule, ip);
      ImportedHead(valid, row.note, ScriptCommand(row.rule, ip), rest);
    } else {
      assert [] + rest == rest;
    }
  }

  lemma CommandStarts(r: Rule, ip: string)
    requires r.Forward?
    ensures var t := ScriptCommand(r, ip); |t| >= 3 && t[0] == "iptables" && t[1] == "-A" && t[2] == "FORWARD"
  {
  }

  lemma ImportedHead(valid: Rule -> bool, note: string, tokens: seq<string>, rest: seq<Line>)
    ensures Imported(valid, (if note != "" then [Line.Comment(note)] else []) + [Command(tokens)] + rest)
         == (if ImportLine(valid, tokens).Some? then [ImportLine(valid, tokens).value] else []) + Imported(valid, rest)
  {
    hide ImportLine;
    var lines := [Command(tokens)] + rest;
    assert lines[0] == Command(tokens) && lines[1..] == rest;
    if note != "" {
      var all := [Line.Comment(note)] + [Command(tokens)] + rest;
      assert all[0] == Line.Comment(note) && all[1..] == lines;
    } else {
      assert [] + [Command(tokens)] + rest == lines;
    }
  }
}
