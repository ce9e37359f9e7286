/** The guard that refuses a change which would cut its own requester off from the web UI. */
module Lockout {
  import opened Wrappers
  import opened Rules

  /** The library calls the guard and the kernel rely on, as parameters.
      isAddress: does ipaddress.ip_address accept the text; contains(net, ip): does ip_network(net) hold ip, false for
      text that is no network; portIn(dport, port): does the kernel's port match accept the port; valid(r): do the
      fields of a form pass their format checks; order(cs): the order in which iterating a set of chains visits them. */
  datatype Env = Env(
    hubMode: bool, isAddress: string -> bool,
    contains: (string, string) -> bool, portIn: (string, string) -> bool,
    valid: Rule -> bool, order: set<Chain> -> seq<Chain>)

  /** Would this INPUT row match a request from `ip` to the web UI (tcp, port 443)? */
  predicate InputMatches(env: Env, r: Rule, ip: string) {
    && r.Input?
    && Given(r.dport) in {None, Some("443")}
    && r.protocol in {"all", "tcp"}
    && (Given(r.src).None? || env.contains(r.src.value, ip))
  }

  /** First match wins, and no match falls through to ACCEPT. */
  predicate FirstMatchAllows(env: Env, rows: seq<Row>, ip: string) {
    if rows == [] then true
    else if InputMatches(env, rows[0].rule, ip) then rows[0].rule.verdict == ACCEPT
    else FirstMatchAllows(env, rows[1..], ip)
  }

  ghost predicate WouldAllow(env: Env, rows: set<Row>, ip: string) {
    !env.isAddress(ip) || FirstMatchAllows(env, Sorted(rows), ip)
  }

  /** The walk of _would_allow_client over a sorted list. */
  method WalkInputRules(env: Env, rows: seq<Row>, ip: string) returns (allowed: bool)
    ensures allowed == (!env.isAddress(ip) || FirstMatchAllows(env, rows, ip))
  {
    if !env.isAddress(ip) {
      return true;
    }
    for i := 0 to |rows|
      invariant FirstMatchAllows(env, rows, ip) == FirstMatchAllows(env, rows[i..], ip)
    {
      if InputMatches(env, rows[i].rule, ip) {
        return rows[i].rule.verdict == ACCEPT;
      }
      assert rows[i..][1..] == rows[i + 1..];
    }
    return true;
  }

  /** The rows that decide who reaches the web UI. */
  function EnabledInput(t: Table): set<Row> {
    EnabledIn(t, INPUT)
  }

  ghost predicate LocksOut(env: Env, who: Option<string>, simulated: set<Row>) {
    who.Some? && !env.hubMode && !WouldAllow(env, simulated, who.value)
  }

  predicate UnrestrictedDrop(r: Rule) {
    match r
    case Input(v, _, src, dport) => v == DROP && Given(src).None? && Given(dport).None?
    case Forward(v, _, src, dst, dport) => v == DROP && Given(src).None? && Given(dst).None? && Given(dport).None?
    case _ => false
  }

  predicate PortWithoutProtocol(r: Rule) {
    (r.Forward? || r.Input?) && r.protocol == "all" && Given(r.dport).Some?
  }

  predicate ReservedPort(r: Rule) {
    r.PortForward? && r.extPort in {Some("443"), Some("22")}
  }

  // ---------- what the kernel does with the same packet ----------

  /** Does a live rule match a tcp packet from `ip` to this server's port 443?  Rules with interface, destination or
      unmodelled matchers are outside this definition and count as not matching. */
  predicate LiveMatches(env: Env, r: LiveRule, ip: string) {
    && r.extra == [] && r.dst.None? && r.inIface.None? && r.outIface.None?
    && (r.protocol.None? || r.protocol.value == "tcp")
    && (r.src.None? || env.contains(r.src.value, ip))
    && (r.dport.None? || env.portIn(r.dport.value, "443"))
  }

  predicate LiveAllows(env: Env, rules: seq<LiveRule>, ip: string) {
    if rules == [] then true
    else if LiveMatches(env, rules[0], ip) && rules[0].target.Jump? then rules[0].target.verdict == ACCEPT
    else LiveAllows(env, rules[1..], ip)
  }

  /** The port of an INPUT rule is a single port: the kernel's test for 443 is equality with "443". */
  predicate SinglePort(env: Env, r: Rule) {
    r.Input? && Given(r.dport).Some? ==> (env.portIn(r.dport.value, "443") <==> r.dport.value == "443")
  }

  ghost predicate SinglePorts(env: Env, rows: seq<Row>) {
    forall r :: r in rows ==> SinglePort(env, r.rule)
  }

  /** The guard's walk over rows is the kernel's walk over the printed rules. */
  lemma {:induction false} GuardIsLive(env: Env, rows: seq<Row>, ip: string)
    requires SinglePorts(env, rows) && forall r :: r in rows ==> r.rule.Input?
    ensures LiveAllows(env, PrintAll(rows, INPUT), ip) == FirstMatchAllows(env, rows, ip)
  {
    if rows != [] {
      GuardIsLive(env, rows[1..], ip);
      assert PrintAll(rows, INPUT) == [Printed(rows[0], INPUT)] + PrintAll(rows[1..], INPUT);
      assert PrintAll(rows, INPUT)[1..] == PrintAll(rows[1..], INPUT);
      assert LiveMatches(env, Printed(rows[0], INPUT), ip) == InputMatches(env, rows[0].rule, ip);
    }
  }

  /** Walking past rows that agree on rule and order gives the same answer, whatever their other columns are. */
  lemma {:induction false} VerdictReadsRulesOnly(env: Env, a: seq<Row>, b: seq<Row>, ip: string)
    requires |a| == |b| && forall i :: 0 <= i < |a| ==> a[i].rule == b[i].rule
    ensures FirstMatchAllows(env, a, ip) == FirstMatchAllows(env, b, ip)
  {
    if a != [] {
      VerdictReadsRulesOnly(env, a[1..], b[1..], ip);
    }
  }
}
