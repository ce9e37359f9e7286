/** The live block rules of a client, and what the commands of the application do to them. */
module BlockRules {
  import opened Wrappers
  import opened Sequences
  import opened Rules
  import opened Firewall
  import opened Mirror

  /** The block rule of a client, as tagged in a chain. */
  function TagOf(c: Chain, name: string): Comment {
    BlockTag((if c == INPUT then "-in:" else ":") + name)
  }

  function HasTag(tag: Comment): LiveRule -> bool {
    (r: LiveRule) => r.comment == tag
  }

  function BlocksOf(live: LiveChains, c: Chain, name: string): seq<LiveRule> {
    Filter(HasTag(TagOf(c, name)), live.At(c))
  }

  lemma TagsDiffer(c: Chain, a: string, b: string)
    requires a != b
    ensures TagOf(c, a) != TagOf(c, b)
  {
    var p := if c == INPUT then "-in:" else ":";
    assert (p + a)[|p|..] == a && (p + b)[|p|..] == b;
  }

  lemma PrintedBlock(row: Row, c: Chain)
    requires row.rule.ClientBlock?
    ensures Printed(row, c).comment == TagOf(c, row.rule.clientName)
  {
  }

  /** -I in both chains puts one block rule of the row's client in front, and changes no other client's. */
  lemma ApplyAdds(live: LiveChains, row: Row, name: string, c: Chain)
    requires row.rule.ClientBlock? && (c == FORWARD || c == INPUT)
    ensures BlocksOf(Apply(live, row), c, name)
            == if name == row.rule.clientName then [Printed(row, c)] + BlocksOf(live, c, name)
              else BlocksOf(live, c, name)
  {
    hide Printed, TagOf, Apply;
    var keep := HasTag(TagOf(c, name));
    PrintedBlock(row, c);
    if name != row.rule.clientName { TagsDiffer(c, name, row.rule.clientName); }
    ApplyBlockEffect(live, row, c);
    FilterConcat(keep, [Printed(row, c)], live.At(c));
    assert Filter(keep, [Printed(row, c)]) == if name == row.rule.clientName then [Printed(row, c)] else [];
  }

  lemma MemberBlocks(live: LiveChains, row: Row, c: Chain)
    requires row.rule.ClientBlock?
    ensures Printed(row, c) in live.At(c) <==> Printed(row, c) in BlocksOf(live, c, row.rule.clientName)
  {
    PrintedBlock(row, c);
  }

  lemma DeleteTakes(live: LiveChains, row: Row, d: Chain, name: string, c: Chain)
    requires row.rule.ClientBlock?
    ensures BlocksOf(DeleteFrom(live, Printed(row, d), d), c, name)
            == if c == d && name == row.rule.clientName then Without(BlocksOf(live, c, name), Printed(row, c))
               else BlocksOf(live, c, name)
  {
    if c == d {
      PrintedBlock(row, c);
      if name == row.rule.clientName {
        FilterWithoutKept(HasTag(TagOf(c, name)), live.At(c), Printed(row, c));
      } else {
        TagsDiffer(c, name, row.rule.clientName);
        FilterWithoutDropped(HasTag(TagOf(c, name)), live.At(c), Printed(row, c));
      }
    }
  }

  /** Both -D commands on a client whose block is in force. */
  lemma UnapplyTakes(live: LiveChains, row: Row, name: string, c: Chain)
    requires row.rule.ClientBlock? && (c == FORWARD || c == INPUT)
    requires BlocksOf(live, FORWARD, row.rule.clientName) == [Printed(row, FORWARD)]
    requires BlocksOf(live, INPUT, row.rule.clientName) == [Printed(row, INPUT)]
    ensures Unapply(live, row).1
    ensures BlocksOf(Unapply(live, row).0, c, name)
            == if name == row.rule.clientName then [] else BlocksOf(live, c, name)
  {
    MemberBlocks(live, row, FORWARD);
    MemberBlocks(live, row, INPUT);
    var first := DeleteFrom(live, Printed(row, FORWARD), FORWARD);
    DeleteTakes(live, row, FORWARD, name, c);
    DeleteTakes(first, row, INPUT, name, c);
    assert first.At(INPUT) == live.At(INPUT);
    hide BlocksOf;
    assert Unapply(live, row) == (DeleteFrom(first, Printed(row, INPUT), INPUT), true);
  }

  /** What a resync does to one block row, from any live state: one more rule in a chain that lacks it, and one too many
      in INPUT when only the FORWARD half was missing. */
  lemma ReapplyExact(live: LiveChains, row: Row)
    requires row.rule.ClientBlock?
    ensures var name, after := row.rule.clientName, Apply(Unapply(live, row).0, row);
            var f, i := Printed(row, FORWARD) in live.At(FORWARD), Printed(row, INPUT) in live.At(INPUT);
            && |BlocksOf(after, FORWARD, name)| == |BlocksOf(live, FORWARD, name)| + (if f then 0 else 1)
            && |BlocksOf(after, INPUT, name)| == |BlocksOf(live, INPUT, name)| + (if f && i then 0 else 1)
            && Printed(row, FORWARD) in after.At(FORWARD) && Printed(row, INPUT) in after.At(INPUT)
  {
    hide BlocksOf, Printed, Unapply, Apply;
    var name := row.rule.clientName;
    var out := Unapply(live, row).0;
    UnapplyCounts(live, row);
    ApplyAdds(out, row, name, FORWARD);
    ApplyAdds(out, row, name, INPUT);
    AppliedIsThere(out, row);
  }

  /** Taking both rules out; the second command is not issued when the first fails. */
  lemma UnapplyCounts(live: LiveChains, row: Row)
    requires row.rule.ClientBlock?
    ensures var name, out := row.rule.clientName, Unapply(live, row).0;
            var f, i := Printed(row, FORWARD) in live.At(FORWARD), Printed(row, INPUT) in live.At(INPUT);
            && |BlocksOf(out, FORWARD, name)| == |BlocksOf(live, FORWARD, name)| - (if f then 1 else 0)
            && |BlocksOf(out, INPUT, name)| == |BlocksOf(live, INPUT, name)| - (if f && i then 1 else 0)
  {
    hide BlocksOf, Printed, Without;
    var name := row.rule.clientName;
    var first := DeleteFrom(live, Printed(row, FORWARD), FORWARD);
    assert first.At(INPUT) == live.At(INPUT);
    hide DeleteFrom;
    DeleteTakes(live, row, FORWARD, name, FORWARD);
    DeleteTakes(live, row, FORWARD, name, INPUT);
    DeleteTakes(first, row, INPUT, name, FORWARD);
    DeleteTakes(first, row, INPUT, name, INPUT);
    MemberBlocks(live, row, FORWARD);
    MemberBlocks(live, row, INPUT);
  }

  lemma AppliedIsThere(live: LiveChains, row: Row)
    requires row.rule.ClientBlock?
    ensures Printed(row, FORWARD) in Apply(live, row).At(FORWARD) && Printed(row, INPUT) in Apply(live, row).At(INPUT)
  {
    hide Printed;
  }

  lemma UnapplyFails(live: LiveChains, row: Row)
    requires row.rule.ClientBlock? && BlocksOf(live, FORWARD, row.rule.clientName) == []
    ensures Unapply(live, row) == (live, false)
  {
    MemberBlocks(live, row, FORWARD);
  }

  // ---------- a client's block rules as a list of addresses ----------

  /** The block rule for an address, as printed for any row of the client. */
  function BlockRule(c: Chain, name: string, ip: string): LiveRule {
    Printed(Row(0, ClientBlock(name, ip), "", true, 0.0), c)
  }

  function BlockRuleOf(c: Chain, name: string): string -> LiveRule {
    ip => BlockRule(c, name, ip)
  }

  /** Both chains hold the client's block rules for these addresses, in this order, and no others. */
  ghost predicate ListsBlocks(live: LiveChains, name: string, ips: seq<string>) {
    && BlocksOf(live, FORWARD, name) == Map(BlockRuleOf(FORWARD, name), ips)
    && BlocksOf(live, INPUT, name) == Map(BlockRuleOf(INPUT, name), ips)
  }

  function Source(r: LiveRule): string {
    if r.src.Some? then r.src.value else ""
  }

  /** The addresses, read off FORWARD. */
  function Ips(live: LiveChains, name: string): seq<string> {
    Map(Source, BlocksOf(live, FORWARD, name))
  }

  lemma ListsIps(live: LiveChains, name: string, ips: seq<string>)
    requires ListsBlocks(live, name, ips)
    ensures Ips(live, name) == ips
  {
    hide BlocksOf;
    forall i | 0 <= i < |ips|
      ensures Ips(live, name)[i] == ips[i]
    {
    }
  }

  lemma PrintedIs(row: Row, c: Chain)
    requires row.rule.ClientBlock?
    ensures Printed(row, c) == BlockRule(c, row.rule.clientName, row.rule.clientIp)
  {
  }

  lemma {:induction false} MapWithout(c: Chain, name: string, ips: seq<string>, ip: string)
    ensures Map(BlockRuleOf(c, name), Without(ips, ip))
            == Without(Map(BlockRuleOf(c, name), ips), BlockRule(c, name, ip))
    ensures ip in ips <==> BlockRule(c, name, ip) in Map(BlockRuleOf(c, name), ips)
  {
    hide BlockRule;
    var f := BlockRuleOf(c, name);
    if ips != [] {
      MapWithout(c, name, ips[1..], ip);
      SameBlockRule(c, name, ips[0], ip);
      assert Map(f, ips) == [f(ips[0])] + Map(f, ips[1..]);
      assert Map(f, ips)[1..] == Map(f, ips[1..]);
      assert ips[0] != ip ==> Without(ips, ip) == [ips[0]] + Without(ips[1..], ip)
                              && Without(ips, ip)[1..] == Without(ips[1..], ip);
    }
  }

  lemma SameBlockRule(c: Chain, name: string, a: string, b: string)
    ensures BlockRule(c, name, a) == BlockRule(c, name, b) <==> a == b
  {
    assert BlockRule(c, name, a).src == Some(a) && BlockRule(c, name, b).src == Some(b);
  }

  /** -I in both chains: one address more, in front. */
  lemma ApplyLists(live: LiveChains, row: Row, name: string, ips: seq<string>)
    requires row.rule.ClientBlock? && ListsBlocks(live, name, ips)
    ensures ListsBlocks(Apply(live, row), name, if name == row.rule.clientName then [row.rule.clientIp] + ips else ips)
  {
    hide BlocksOf, Printed, Apply;
    ApplyAdds(live, row, name, FORWARD);
    ApplyAdds(live, row, name, INPUT);
    if name == row.rule.clientName {
      PrintedIs(row, FORWARD);
      PrintedIs(row, INPUT);
      var all := [row.rule.clientIp] + ips;
      assert all[0] == row.rule.clientIp && all[1..] == ips;
    }
  }

  /** Both -D commands work exactly if the address is listed, and take it out once. */
  lemma UnapplyLists(live: LiveChains, row: Row, name: string, ips: seq<string>, mine: seq<string>)
    requires row.rule.ClientBlock? && ListsBlocks(live, name, ips) && ListsBlocks(live, row.rule.clientName, mine)
    ensures Unapply(live, row).1 <==> row.rule.clientIp in mine
    ensures ListsBlocks(Unapply(live, row).0, name,
                  if name == row.rule.clientName then Without(ips, row.rule.clientIp) else ips)
  {
    hide BlocksOf, Printed, Without;
    var me, ip := row.rule.clientName, row.rule.clientIp;
    PrintedIs(row, FORWARD);
    PrintedIs(row, INPUT);
    MapWithout(FORWARD, me, mine, ip);
    MapWithout(INPUT, me, mine, ip);
    MemberBlocks(live, row, FORWARD);
    MemberBlocks(live, row, INPUT);
    if ip in mine {
      BothDeleted(live, row, name, FORWARD);
      BothDeleted(live, row, name, INPUT);
    } else {
      NoneDeleted(live, row);
      WithoutAbsent(mine, ip);
    }
    if name == me { ListsIps(live, name, ips); ListsIps(live, name, mine); }
  }

  lemma WithoutAbsent(ips: seq<string>, ip: string)
    requires ip !in ips
    ensures Without(ips, ip) == ips
  {
  }

  lemma BothDeleted(live: LiveChains, row: Row, name: string, c: Chain)
    requires row.rule.ClientBlock? && c in {FORWARD, INPUT}
    requires Printed(row, FORWARD) in live.At(FORWARD) && Printed(row, INPUT) in live.At(INPUT)
    ensures Unapply(live, row).1
    ensures BlocksOf(Unapply(live, row).0, c, name)
            == if name == row.rule.clientName then Without(BlocksOf(live, c, name), Printed(row, c))
               else BlocksOf(live, c, name)
  {
    hide BlocksOf, Printed, Without;
    var first := DeleteFrom(live, Printed(row, FORWARD), FORWARD);
    assert first.At(INPUT) == live.At(INPUT);
    DeleteTakes(live, row, FORWARD, name, c);
    DeleteTakes(first, row, INPUT, name, c);
    assert Unapply(live, row) == (DeleteFrom(first, Printed(row, INPUT), INPUT), true);
  }

  lemma NoneDeleted(live: LiveChains, row: Row)
    requires row.rule.ClientBlock? && Printed(row, FORWARD) !in live.At(FORWARD)
    ensures Unapply(live, row) == (live, false)
  {
  }

  /** Taking a block out and putting it back: one address more only if it was not listed. */
  lemma ReapplyLists(live: LiveChains, row: Row, name: string, ips: seq<string>, mine: seq<string>)
    requires row.rule.ClientBlock? && ListsBlocks(live, name, ips) && ListsBlocks(live, row.rule.clientName, mine)
    ensures ListsBlocks(Apply(Unapply(live, row).0, row), name,
                  if name == row.rule.clientName then [row.rule.clientIp] + Without(ips, row.rule.clientIp) else ips)
  {
    hide ListsBlocks, Apply, Unapply;
    UnapplyLists(live, row, name, ips, mine);
    ApplyLists(Unapply(live, row).0, row, name,
               if name == row.rule.clientName then Without(ips, row.rule.clientIp) else ips);
  }
}
