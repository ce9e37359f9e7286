# A verified model of the VPN control panel

This project models the stateful core of a web panel that runs a PiVPN/OpenVPN box, in Dafny 4.11, and proves what that
core is meant to keep: that the live firewall mirrors the rule table, that journal batches are stored exactly once, that
session history and load charts say what the log says, and that live status and live updates survive races.

`dafny verify dfyconfig.toml` checks everything.

## What is modelled

**The rule engine** (`app/firewall.py`, `app/db.py`).
- `Rules` holds the row table, the four live chains and the printer from a row to a live rule.
- `Firewall` says what each operation does to table and chains; `FirewallApp` does the same step by step, as a class whose
  methods are proved equal to those functions. `Discovery` computes the positions of adopted rules, `Lockout` the
  self-lockout guard.
- `Mirror`, `Reordering`, `SelfLockout` and `Adoption` prove properties over single calls and over whole runs, by way of
  the edit each call comes to (`Edits`). `Ties` says when a discovery keeps positions distinct, `BlockRules`,
  `BlockMirror` and `BlockFronts` follow the live rules of client blocks, and `LiveVerdict` says what a requester really
  gets. `Packets` reads a live rule as what it does to a packet.
- `Answers` says, from the states before and after alone, which calls are refused, what a call that is not refused leaves
  in table and chains, and what a resync brings back; `Breaks` says which calls end by an exception.
- `Workers` lets any number of workers add, drag, enable, resync and discover step by step (commit, lock, list, delete,
  read, append); `Claims`, `Convergence` and `Crossings` say exactly when table and chains agree in the end.
  `Alone` proves that a worker nobody disturbs ends exactly where the operation of `Firewall` does. `ClientBlocks` does
  the same for concurrent block, unblock and resync requests.
- `Argv` models the parser of listed rules, the printer, and the exported client script.

**The journal stream** (`agent.py`, `hub_gateway.py`, `app/db.py`). `Journal` has the tables and one batch;
`JournalStream` is the protocol with lost acknowledgements, timeouts, reconnects and old handlers that finish late;
`JournalProgress` says when it can get to the end of the journal.

**Sessions and charts** (`app/vpnlog.py`, `app/static/js/client-detail-page.js`). `Sessions` is the event-driven pass;
`SessionHistory` states from the event list alone what its result must be, and proves it is that. `PeakLoad` is the sweep
behind the activity chart, `DayChart` the per-day bars. `Sorting` is stable sorting.

**Status cache and live updates** (`app/db.py`, `deploy/ingest_clients.py`, `overview_stream.py`,
`app/static/js/overview-stream.js`). `StatusCache` and `StatusRaces` are the two writers and their interleavings, `Broker`
the bounded signal queue, `EventStream` printing and chunked parsing, `LikeSearch` the escaped search.

## How to read the model

- Positions are doubles in the source and exact reals here.
- A bookkeeping field that the source does not store is named as such where it is declared: the furthest journal position
  committed, the event a session stems from, the write a status row's session came from and the one that inserted it,
  the topics not yet drained and those of them a full queue has lost, the chains whose last rebuild an add has crossed,
  the block rules that went live without a row.
- Validity of addresses, ports and protocol names, whether an address lies in a network, and the order in which a set of
  chains is visited are parameters (`Env`, `valid`). So are clocks, local midnights, case folding and the conversion of a
  journal line to a row.
- Commands succeed, except that deleting an absent rule fails, and that a client block's pair of commands may fail in
  `ClientBlocks`. A command with an empty place in it, as for a port forward without a port, cannot be built: the rebuild
  stops there and so does the call (`Stuck`, `Reached`, `Broken`).
- Where a promise turned out to hold only under a condition, the condition is stated as an if-and-only-if and the failing
  input is given:
  - discovery keeps the mirror if and only if PREROUTING lists no adoptable port forward without a port
    (`DiscoveryKeepsMirror`, `PortlessForwardBreaksTheMirror`); a resync repairs a chain if and only if it rebuilds the
    chain to the end (`ResyncExact`), which, when every row can be printed, means that an enabled row targets the chain or
    it holds nothing tagged (`ResyncRepairsIff`);
  - adopted rules stand where they stood if and only if no run of them lies between two tracked rows of equal position
    (`DiscoveredOrderIff`; `TieMovesTheAdoptedRule` and `TieExists` give the rule that moves and the packets that are then
    dropped); a packet keeps its verdict if and only if no rule left alone matches it or the first of those that do
    decides as the chain did (`VerdictKeptIff`);
  - a discovery keeps positions distinct if and only if no rule to adopt is due at the position of a disabled row, and no
    port forward to adopt at that of a FORWARD row or rule (`DiscoveryKeepsDistinctIff`, `DiscoveryCanTie`);
  - over its own calls a requester keeps reaching the web UI if and only if none of them switches on a client block that
    covers it (`NeverCutOffIff`): the guard for blocks compares texts and is asked by block requests only, not when a
    block row is toggled (`TogglingABlockCutsOff`);
  - a drag lands where it was dropped if and only if the drop point has a gap (`DropLandsExactly`,
    `TieMissesTheDropPoint`);
  - concurrent workers leave a chain in sync if and only if its last rebuild was not crossed by an add and no add has
    overtaken another since (`ConvergesIff`; the schedules that fail are `ReadBetweenCommitAndAppend`,
    `AppendBetweenListingAndRead`, `AppendBeforeLastAppend` and `AddOvertakesAdd`);
  - block rows and live block rules agree if and only if every block rule that went live without a row was undone
    (`BlocksAgreeIff`); a resync in the middle of a block request is what makes one (`ResyncInsideABlock`);
  - storing a batch again is a no-op if and only if every row has a key without NULLs (`ReplayIsNoOpIffKeyed`); a stored
    batch moves the agent on if and only if no late acknowledgement is queued before its own (`RoundAdvancesIff`); the
    stream can get to the end of the journal if and only if the hub accepts every entry still to be stored
    (`CatchesUpIff`);
  - a destination reads back if and only if its host has no colon (`DnatRoundTripsIffNoColon`);
  - a renewal stamp moves if and only if some listed line differs or the client was touched (`StampMovesIff`,
    `RepeatedNameAlwaysMoves`); an empty list removes rows if and only if the last commit since its check was not empty
    (`EmptyListRemovesIff`, `EmptyGuardCanRace`); a row inserted after a push is older than the push if and only if its
    ingest began before and no later one has committed (`NewRowIsStaleIff`, `NewRowMayBeStale`);
  - a log topic reaches the browser if and only if the stream has it in hand or no publish since its last one met a full
    queue (`LogTopicArrivesIff`, `LogTopicCanBeLost`).
- A block of which only the FORWARD rule is missing comes out of a resync with two INPUT rules (`ReapplyExact`), because
  the second deletion is not issued when the first fails.
- The documentation of `_positions_for_new_specs` promises places strictly between the tracked neighbours
  (`app/firewall.py:1728-1740`); between two neighbours of equal position the code gives that position again
  (`PlaceOfTie`). The model follows the code.
- The documentation of the log search calls it case-insensitive (`app/db.py:1196-1197`); the code uses `LIKE`, which is
  not. The model follows the code.
- The documentation of `replace_client_status_cache` says the last line for a repeated name wins (`app/db.py:636-640`).
  For the session columns the first one written does, because it makes the row younger than the snapshot's start stamp;
  both lines carry the same session, so nothing shows.

## Model

| member | source | states |
|---|---|---|
| Rules.SortedIsAscending | app/firewall.py:370-373 | the rows of a chain, sorted by position and then id, are exactly the given rows, each once, in strictly ascending order |
| Rules.AscendingUnique | app/firewall.py:370-373 | that order is determined by the set of rows alone |
| Rules.OrderedFacts | app/firewall.py:335-336 | a row is in a chain's order exactly when it is stored, enabled and of a kind that targets the chain |
| Discovery.PositionsForNewSpecs | app/firewall.py:1728-1764 | the list of positions filled run by run gives every untracked slot of a chain exactly its interpolated place, and tracked slots nothing |
| Discovery.RunPositions | app/firewall.py:1746-1763 | one run of untracked slots is filled from its two tracked neighbours |
| Discovery.InterpolatedClimbs | app/firewall.py:1749-1762 | places between two tracked neighbours climb strictly and stay strictly between them |
| Discovery.PlacesClimb | app/firewall.py:1741-1764 | along tracked rows that never step back, a new place is behind every slot before it and before every slot behind it, provided no run of new slots lies between two equal tracked positions |
| Discovery.PlaceOfTie | app/firewall.py:1757-1762 | between two tracked rows of equal position every new row gets that same position |
| Discovery.EvenlySpaced | app/firewall.py:1749-1762 | the new places of a run divide the room between its two tracked neighbours into equal parts; beside a single neighbour, or none, they are one apart |
| Discovery.AdoptsIff | app/firewall.py:1436-1478 | a live rule can be adopted if and only if its target is one that the row kinds of its chain have, whatever it matches |
| Discovery.AdoptedDefaults | app/firewall.py:1436-1478 | what the live rule leaves open is filled in: any protocol for a filter rule, tcp for a port forward, which without a port of its own goes to the port it came in at, on any interface |
| Discovery.AdoptedTargetsItsChain | app/firewall.py:1436-1478 | a rule adopted from a chain becomes a row that takes part in that chain, and never a client block |
| Lockout.WalkInputRules | app/firewall.py:424-436 | the loop over sorted rules returns the verdict of the first enabled match |
| Lockout.GuardIsLive | app/firewall.py:231-241 | walking the rows gives the verdict the kernel reaches on the printed rules for tcp port 443, when every port is a single port |
| Lockout.VerdictReadsRulesOnly | app/firewall.py:424-436 | the verdict depends on the rules in order and on no other column |
| Firewall.TopmostExists | app/db.py:466-472 | a non-empty table has a row of greatest position |
| Firewall.MaxPositionBounds | app/db.py:466-472 | the position a new row is put behind is at least every stored one |
| FirewallApp.SortRows | app/firewall.py:370-373 | sorting by position and id yields the chain order |
| FirewallApp.TopPosition | app/db.py:466-472 | the maximum position over some rows, 0 for none |
| FirewallApp.CheckSelfLockout | app/firewall.py:457-463 | the guard refuses exactly when the simulated rules would not let the requester in, outside hub mode |
| FirewallApp.App.DeleteTagged | app/firewall.py:360-368 | deletes every numerically tagged rule of a chain and nothing else, in place |
| FirewallApp.App.AppendRows | app/firewall.py:374-375 | appends the printed rows in order, up to the first whose command cannot be built |
| FirewallApp.App.RebuildChain | app/firewall.py:360-375 | leaves the untagged rules in order, followed by the enabled rows in position order as far as they can be printed, and tells whether that was all |
| FirewallApp.App.RebuildChains | app/firewall.py:1338-1342 | rebuilding chain after chain is rebuilding the set of them, or those up to the first that stops |
| FirewallApp.App.AddRule | app/firewall.py:754-816 | add: field checks (with validity of addresses, ports and protocols as a parameter), guard, insert with the next id and the top position, append to the live chain; a refusal changes nothing |
| FirewallApp.App.EnableRow | app/firewall.py:1223-1256 | enabling an ordered row rebuilds its chains, enabling a block applies it |
| FirewallApp.App.DisableRule | app/firewall.py:1267-1293 | disable: guard, flip the flag, take the live rule out; a command that cannot be built ends the call outside hub mode |
| FirewallApp.App.ToggleRule | app/firewall.py:1223-1264 | toggle with both guards, in either direction |
| FirewallApp.App.DeleteRule | app/firewall.py:1296-1312 | delete: guard, drop the row, take the live rule out if it was enabled |
| FirewallApp.App.ReorderRule | app/firewall.py:576-639 | reorder: new position among the rows that share a chain, guard for INPUT, rebuild of the row's chains |
| FirewallApp.App.BlockClient | app/firewall.py:1163-1208 | block: nothing when a block row exists, else guard, insert and put one rule in front of FORWARD and INPUT |
| FirewallApp.App.UnblockClient | app/firewall.py:1192-1201 | unblock: take both rules out and delete the row, or keep the row when a rule was not there |
| FirewallApp.App.SyncAll | app/firewall.py:1315-1342 | full resync reapplies every block and rebuilds the chains that an enabled row targets, one after the other until one stops |
| FirewallApp.App.ScanChain | app/firewall.py:1846-1883 | one chain scanned: every adoptable rule becomes a row at its interpolated place and leaves the live chain |
| FirewallApp.App.DiscoverCliRules | app/firewall.py:1830-1894 | all chains scanned against the table read at the start, chains that gained a row rebuilt until one stops; returns the number imported and the enabled rows whose tag no listing shows |
| FirewallApp.ScanStep | app/firewall.py:1858-1883 | one step of the scanning loop either leaves everything alone or records one row and deletes one live rule |
| Mirror.RebuiltInSync | app/firewall.py:353-375 | after a rebuild the tagged rules of a chain are its enabled rows in order if and only if the rebuild got to the end; foreign rules keep their order either way |
| Mirror.AppendRow | app/firewall.py:644-655 | plain append agrees with the order because a new row is on top |
| Mirror.ChangeAndRebuild | app/firewall.py:636-639 | changing one row and rebuilding its chains keeps every chain in sync |
| Mirror.RemoveRow | app/firewall.py:1296-1312 | deleting or disabling a row and its live rule keeps every chain in sync |
| Mirror.ResyncKeepsMirror | app/firewall.py:1315-1342 | a resync keeps the mirror, although chains without enabled rows are not rebuilt |
| Mirror.ResyncExact | app/firewall.py:1315-1342 | from any table and live state a resync leaves a chain in sync if and only if it rebuilt it to the end, or did not get to it and it was in sync before; foreign rules keep their order |
| Mirror.ResyncRepairsIff | app/firewall.py:1328-1342 | when every row can be printed, from any live state, such as a flushed one, a resync puts a chain in sync if and only if some enabled row targets it or it holds no tagged rule |
| Mirror.DiscoveryKeepsMirror | app/firewall.py:1767-1894 | discovery keeps the mirror if and only if PREROUTING lists no adoptable DNAT rule without a port; foreign rules that cannot be adopted keep their order either way |
| Mirror.PortlessForwardBreaksTheMirror | app/firewall.py:1455-1464 | one hand-made DNAT rule for an interface, without a port, is enough to break it |
| Mirror.FirstDiscoveryKeepsMirrorIff | app/firewall.py:213-228 | along a run, the first discovery keeps the mirror if and only if no such rule was live at the start |
| Mirror.SyncedReportsNothingMissing | app/firewall.py:1888-1894 | in a synced state a discovery reports no row as gone |
| Mirror.MissingAre | app/firewall.py:1888-1894 | reported as gone are exactly the enabled rows of an ordered kind whose tag no rule of any chain carries |
| Mirror.StepKeepsMirror | app/firewall.py:353-375 | every operation, carried out or refused, leaves the tagged part of every chain equal to the enabled rows in order, every row printable and foreign rules in their order; for discovery unless a DNAT rule without a port is listed |
| Mirror.RunKeepsMirror | app/firewall.py:335-403 | the same along every run of operations, with exactly the adoptable foreign rules gone once a discovery has run |
| Reordering.DropLandsExactly | app/firewall.py:607-636 | the dragged row becomes the direct neighbour of the target on the chosen side if and only if the drop point has a gap between two positions, or the ids happen to be in order |
| Reordering.TieMissesTheDropPoint | app/firewall.py:620-627 | between two rows of equal position a drop can miss |
| Reordering.DistinctLeavesGap | app/firewall.py:607-627 | with pairwise distinct positions in each chain there is always a gap |
| Reordering.DropLandsInEveryChain | app/firewall.py:601-636 | the row lands beside the target in every chain the two share, over all rows and over the enabled ones |
| Reordering.OthersKeepOrder | app/firewall.py:607-639 | all other rows keep their order in every chain |
| Reordering.ReorderIsRefusedIff | app/firewall.py:576-635 | a drag is refused if and only if a row is missing, the row is dropped on itself, the two share no chain, or an INPUT row would move to where it cuts the requester off |
| Reordering.ReorderDoes | app/firewall.py:598-639 | a drag that is not refused moves its row to the middle between the target and its neighbour on that side, or to one beyond the target, and changes no other row or field; the row then stands directly beside the target in every chain they share if and only if the drop point had a gap |
| Reordering.ReorderIsLive | app/firewall.py:636-639 | in an intact system, with a gap and both rows on, the tags of the two follow each other directly in every live chain they share |
| Reordering.DropKeepsDistinct | app/firewall.py:620-636 | a drag keeps the positions of each chain pairwise distinct |
| Reordering.StepKeepsDistinct | app/firewall.py:576-655 | so does every operation other than discovery |
| Reordering.RunKeepsDistinct | app/firewall.py:576-655 | and every run of them; so in the state after any such run a drag that is not refused puts its row directly beside the target in every chain they share |
| Ties.RowsAfter | app/firewall.py:1846-1883 | the rows of a chain after a discovery are those it had and one for each rule to adopt that feeds it |
| Ties.DiscoveryKeepsDistinctIff | app/firewall.py:1728-1764 | a discovery keeps the positions of a chain pairwise distinct if and only if no rule to adopt is due at the position of a disabled row, and no port forward to adopt at that of a FORWARD row or rule to adopt |
| Ties.RunKeepsDistinctIff | app/firewall.py:576-655 | over a run with discoveries positions stay distinct after every call if and only if no discovery of it meets such a collision |
| Ties.DistinctLands | app/firewall.py:607-636 | and as long as they are, a drag of the run that is not refused leaves its row directly beside the target in every shared chain of the next state and all other rows as they were; a refused one leaves the state as it was |
| Ties.DiscoveryKeepsDistinct | app/firewall.py:1728-1764 | so in a chain without a disabled row, fed by its own listing, discovery keeps positions distinct |
| Ties.DiscoveryCanTie | app/firewall.py:1728-1764 | with a disabled row a discovery and an enable can end with two enabled rows of equal position |
| Ties.DiscoverDoes | app/firewall.py:1830-1886 | a discovery keeps every stored row as it is and gives every rule it can adopt an enabled row with a new id, in that chain, with its comment in the note, which prints back what the rule matched and did |
| SelfLockout.AddGuardExact | app/firewall.py:785-810 | the rule set simulated before an add gives every address the verdict of the table then committed, though it is numbered and placed differently |
| SelfLockout.ChangeGuardExact | app/firewall.py:1211-1307 | the set simulated for toggle, disable and delete is the committed set of enabled INPUT rows |
| SelfLockout.MoveGuardExact | app/firewall.py:629-636 | the set simulated for a reorder is the committed one |
| SelfLockout.StaysAllowed | app/firewall.py:457-463 | a requester whom the INPUT rows allow is still allowed by them after any of its own calls; client blocks are not among these rows |
| SelfLockout.NeverLockedOut | app/firewall.py:457-463 | and after any run of them |
| SelfLockout.VerdictIsLive | app/firewall.py:406-436 | when INPUT holds only the application's tagged rules with single ports, the simulated verdict is the live first match for tcp port 443 |
| LiveVerdict.LiveVerdictIs | app/firewall.py:423-436 | with client blocks in front of them, an address gets through if and only if the simulated verdict allows it and no block that is switched on covers it |
| LiveVerdict.StaysLiveIff | app/firewall.py:1231-1256 | after a call of its own, discovery included, an address still gets through if and only if the call did not switch on a block that covers it |
| LiveVerdict.NeverCutOffIff | app/firewall.py:552-575 | and over a whole run of its own calls it gets through after every one of them if and only if none did |
| LiveVerdict.TogglingABlockCutsOff | app/firewall.py:1231-1256 | a requester that toggles a block of its own address is cut off, although every simulated verdict allows it |
| BlockMirror.StepKeepsBlocks | app/firewall.py:269-332 | every operation, carried out or refused, leaves each client one block rule in FORWARD and in INPUT exactly while its block row is switched on |
| BlockMirror.RunKeepsBlocks | app/firewall.py:1140-1208 | the same along every run of operations |
| BlockFronts.RunKeepsFront | app/firewall.py:269-279 | along every run nothing gets in front of the block rules of a chain |
| Packets.PrintedDoes | app/firewall.py:198-290 | in each of its chains a printed rule matches exactly the packets that the row asks for, and does with them what the row says: both rules of a block drop, and the FORWARD half of a port forward accepts exactly protocol, target address and target port |
| Packets.GuardsPacket | app/firewall.py:424-436 | the self-lockout guard asks about one such packet, tcp to port 443 |
| Packets.BlockedIsDropped | app/firewall.py:269-279 | with the blocks in front, the first rule to match a packet of a blocked client drops it, forwarded or sent to the server, whatever else the chains hold |
| Packets.BlockedAlongRuns | app/firewall.py:1140-1208 | so after every run; and once no block of a client is on, no rule in either chain carries its tag |
| Answers.RefusedIff | app/firewall.py:576-1312 | every call is refused if and only if its own guard holds, among them: an add with an invalid field, without a form, with a rule that drops everything, has a port but no protocol or takes over port 22 or 443; a change of INPUT rows that cuts the requester off; a block of the own address; an unblock whose rules are not live |
| Answers.AddDoes | app/firewall.py:754-816 | an add that is not refused stores exactly one row more, with that rule and note, on, one behind the last, under a new id, and puts behind each of its chains one rule under its tag that does what was asked for |
| Answers.ToggleDoes | app/firewall.py:1223-1264 | a toggle that is not refused turns the flag of a stored row and nothing else, and from an intact state the live chains then show the row, or the block, exactly if it is now on |
| Answers.DisableDoes | app/firewall.py:1267-1293 | disabling switches a stored row off, changes no other row and, from an intact state, leaves no rule of it live |
| Answers.DeleteDoes | app/firewall.py:1296-1312 | deleting drops a stored row, on or off, changes no other row and, from an intact state, leaves no rule of it live |
| Answers.BlockDoes | app/firewall.py:1163-1208 | a block that is not refused stores exactly one block row and puts in front of FORWARD and INPUT one rule that matches the client's packets and drops them; nothing changes if the client has a block row |
| Answers.UnblockDoes | app/firewall.py:1192-1201 | an unblock that is not refused drops the client's block row, and then no rule carries its tag |
| Answers.TagIsShownIff | app/firewall.py:353-375 | in a synced state a chain shows a row's tag if and only if the row is stored, on, and of a kind that targets the chain |
| Answers.BlockIsShownIff | app/firewall.py:269-290 | and a client's block tag if and only if a block row of the client is on |
| Answers.ResyncRestoresBlocks | app/firewall.py:1327-1336 | from chains without any block rule, as after a flush, a resync makes every block that is on live again, once in FORWARD and once in INPUT |
| Answers.NeverBroken | app/firewall.py:213-228 | while every row can be printed no call ends by an exception, except a discovery, and that if and only if it finds a port forward without a port |
| Breaks.BrokenIff | app/firewall.py:213-228 | in any state a call that is not refused ends by an exception if and only if it comes to an enabled port forward that lacks the port of a command it issues: one it takes out itself, outside hub mode, or one in a chain it rebuilds |
| Edits.EditOf | app/firewall.py:576-816 | every call but discovery comes to exactly the edit it asks for: a new row with that rule and note, the flag turned, the row dropped, the row at its new position; and to none only if it is refused or there is nothing to do |
| Adoption.AdoptedPrintsBack | app/firewall.py:1436-1478 | in each of the four chains, printing an adopted rule of the application's grammar gives back its matchers and target |
| Adoption.DiscoveredOrderIff | app/firewall.py:1846-1886 | after discovery the enabled rows of a chain stand in live order, tracked and adopted merged, if and only if no rule to adopt lies in a run between two tracked rows of equal position |
| Adoption.DiscoveredMeaning | app/firewall.py:1830-1886 | with room for every rule to adopt, a chain then means what was left alone, in order, followed by everything tracked or adopted, in order; a chain with nothing to adopt is untouched, whatever its positions |
| Adoption.AdoptionPreservesMeaning | app/firewall.py:1806-1886 | with the rules left alone in front, the sequence of matches and targets is unchanged |
| Adoption.MeaningDecides | app/firewall.py:1806-1813 | chains with the same sequence of matches and targets give every packet the same first match |
| Adoption.EveryPacketKeepsItsVerdict | app/firewall.py:1806-1886 | so discovery changes no packet's first match there |
| Adoption.VerdictKeptIff | app/firewall.py:1806-1886 | wherever the rules left alone stand, a packet keeps its verdict if and only if none of them matches it or the first that does decides as the chain did |
| Adoption.TieMovesTheAdoptedRule | app/firewall.py:1757-1762 | without room the adopted rule ends up behind the row after it, and packets both match change their verdict |
| Adoption.TieExists | app/firewall.py:1757-1762 | a concrete chain where an accepted packet is dropped after discovery |
| Adoption.DiscoveryIsIdempotent | app/firewall.py:1830-1886 | after one discovery nothing is left to adopt in any chain, whatever was there and wherever a rebuild may have stopped, and a second changes nothing |
| Convergence.DoKeepsInv | app/firewall.py:24-51 | every step of every worker keeps the protocol invariant |
| Convergence.ExecKeepsInv | app/firewall.py:24-51 | so does every schedule |
| Convergence.ConvergesIff | app/firewall.py:353-403 | whenever all workers are done and no rebuild stopped, the tagged part of every chain ever touched is exactly its enabled rows in order if and only if its last rebuild was not crossed by an add and no add has overtaken another since |
| Convergence.Converges | app/firewall.py:24-51 | workers that drag, enable, resync and discover, without adds, always get there |
| Convergence.EachRuleOnce | app/firewall.py:24-51 | and each of them is live once |
| Alone.AddAlone | app/firewall.py:785-816 | an undisturbed worker that adds ends with table, ids and chains of the accepted add |
| Alone.MoveAlone | app/firewall.py:629-639 | the commit of a drag and its rebuilds, undisturbed and in any order of the chains, end in the state of the reorder, broken off or not |
| Alone.EnableAlone | app/firewall.py:1223-1256 | the same for switching on a row of an ordered kind |
| Alone.ResyncAlone | app/firewall.py:1338-1342 | the same for the rebuilds of a resync outside hub mode |
| Alone.DiscoverAlone | app/firewall.py:1830-1894 | the same for a discovery: four scans against the first table, one row recorded and one rule deleted at a time, then the rebuilds |
| Claims.AppendPending | app/firewall.py:644-655 | an add's append, outside the lock, is right exactly when no rebuild of the chain is between its listing and its last append and no older add is still on its way |
| Claims.AtRead | app/firewall.py:360-373 | a rebuild's read of its rows is right exactly when no add appended since it listed the chain and none is between commit and append |
| Crossings.NeverHalts | app/firewall.py:213-228 | no rebuild in any schedule stops while every port forward, stored or put into PREROUTING by hand, has its port |
| Crossings.ReadBetweenCommitAndAppend | app/firewall.py:644-655 | a schedule on which a rebuild reads between an add's commit and its append: the new rule is live twice |
| Crossings.AppendBetweenListingAndRead | app/firewall.py:360-375 | a schedule on which an add appends between a rebuild's listing and its read: live twice |
| Crossings.AppendBeforeLastAppend | app/firewall.py:374-375 | a schedule on which an add commits and appends between a rebuild's read and its last append: out of order |
| Crossings.AddOvertakesAdd | app/firewall.py:644-655 | a schedule of two adds alone whose appends come in the other order than their commits |
| ClientBlocks.BlocksAgreeIff | app/firewall.py:1140-1208 | in every interleaving of block, unblock and resync requests and of edits elsewhere, a name has at most one block row and as many rules in FORWARD as in INPUT, and with no block call in flight it has one row and one rule in each or none at all if and only if every rule that went live without a row was undone |
| ClientBlocks.BlocksAgree | app/firewall.py:1140-1208 | so rows and rules agree while no rule goes live without a row |
| ClientBlocks.NothingExtra | app/firewall.py:1140-1208 | which never happens without a resync |
| ClientBlocks.ResyncInsideABlock | app/firewall.py:1327-1336 | a resync between a block's commit and its commands doubles the rules, and an unblock then leaves the client blocked without a row |
| BlockRules.UnapplyTakes | app/firewall.py:269-290 | both deletions take out exactly that client's two rules |
| BlockRules.ReapplyExact | app/firewall.py:327-332 | reapplying a block from any live state makes both its rules live, once more where one was missing, and one too many in INPUT when only the FORWARD rule was missing |
| ClientBlocks.BlockAlone | app/firewall.py:1163-1208 | run alone, the two steps of a block are the sequential operation |
| ClientBlocks.ReappliesAlone | app/firewall.py:1327-1336 | run alone, a resync that has read the block rows applies them as the sequential one does |
| ClientBlocks.FailedBlockLeavesNothing | app/firewall.py:1203-1208 | a block whose commands fail leaves table and chains as they were |
| Argv.ParseRuleSpec | app/firewall.py:1386-1433 | the loop over tokens computes the parse |
| Argv.ParseReadsGroups | app/firewall.py:1386-1433 | a listing made of matcher groups is read group by group, whatever their number |
| Argv.ParseIgnoresOrder | app/firewall.py:1386-1433 | the groups may come in any order |
| Argv.TagReadsBack | app/firewall.py:353-367 | a printed tag names exactly its row's id |
| Argv.CommentsToldApart | app/firewall.py:353-367 | a comment is a row's tag if and only if it is the prefix with digits behind it and nothing else, a block tag if and only if it begins with the block prefix, and a note if and only if it lacks the prefix |
| Argv.DecimalReadsBack | app/firewall.py:198-210 | an id printed in decimal reads back |
| Argv.DictAndStructureAgree | app/firewall.py:1436-1478 | adopting from the parsed dictionary is adopting from the structured rule, a missing port included |
| Argv.PrintThenParse | app/firewall.py:198-266 | listing a printed rule, with the extra protocol match, parses to that rule |
| Argv.RuleRoundTrip | app/firewall.py:1386-1478 | for forward, input, port-forward, masquerade and source-NAT rules the fields come back, absent and empty alike |
| Argv.CommandImportsBack | app/firewall.py:921-952 | a printed FORWARD or INPUT command, with or without a table in front, imports to the row's rule unless the field checks refuse it |
| Argv.ScriptHasNotes | app/firewall.py:1712-1723 | the exported script has a command for every rule of the client, and directly above it the rule's note, if there is one |
| Argv.DnatRoundTripsIffNoColon | app/firewall.py:1436-1478 | the destination of a port-forward splits back if and only if its host has no colon |
| Argv.ScriptImportsBack | app/firewall.py:921-1076 | importing an exported client script yields the client's rules with the same fields in the same order |
| Argv.TableScriptImportsBack | app/firewall.py:1685-1725 | for the rows a table lists these are exactly its enabled FORWARD rules for that client, in position and id order |
| Journal.ReplayIsNoOpIffKeyed | app/db.py:1140-1159 | storing a batch again changes nothing if and only if each of its rows has a key without NULLs |
| Journal.KeyedPartInserts | app/db.py:255-259 | rows without a full key never get in the way of the others |
| Journal.InsertAllKeepsKeysOnce | app/db.py:1140-1159 | inserting keeps every key unique |
| Journal.CommitExtendsPrefix | app/db.py:1140-1159 | committing a batch that starts inside the stored prefix stores exactly a prefix again, longer or the same |
| Journal.BatchRows | hub_gateway.py:98-133 | the conversion loop refuses a batch with an invalid event and otherwise yields exactly the rows of its usable events, in order, and the last cursor |
| Journal.Store.HandleBatch | hub_gateway.py:277-293 | a batch of one to fifty valid events is stored together with its cursor: rows without a full key all, of the others the first of each key that is new, and nothing else; any other batch changes nothing |
| JournalStream.DoKeepsInv | agent.py:199-277 | every step of agent, wire and hub keeps the stream invariant |
| JournalStream.TakeAckKeepsInv | agent.py:256-269 | the agent moves its cursor only to what is stored, however late or mismatched the acknowledgement |
| JournalStream.CommitKeepsInv | hub_gateway.py:284-292 | a commit, by an old handler too, keeps the table a prefix |
| JournalStream.RoundAdvancesIff | agent.py:250-264 | one undisturbed round stores batch and cursor, and the agent moves on if and only if no older acknowledgement is still queued; otherwise it replays |
| JournalStream.StoredIsAPrefix | app/db.py:1140-1159 | after every schedule the stored keyed rows are exactly those of a journal prefix, each key once, no row is from behind it, and both cursors lie inside it |
| JournalStream.FullyKeyedStreamIsExact | app/db.py:1140-1159 | for VPN events the whole table is that prefix |
| JournalStream.NothingIsLost | app/db.py:1281-1300 | every row of that prefix is stored, one with a key by its key, one without a full key, as of flows without ports, as it is |
| JournalStream.EntriesAreStored | hub_gateway.py:98-133 | read off the journal entries: each usable entry of the prefix that makes a row has it stored, a keyed one by its key and as it is if no earlier entry has that key, and every stored row is the row of such an entry |
| JournalProgress.CatchUp | agent.py:210-264 | from a clear connection and acceptable entries, reading and sending batches gets the agent to the end of the journal with nothing left unsent |
| JournalProgress.StaysBehind | hub_gateway.py:98-116 | no schedule ever stores anything past a usable entry that the hub refuses |
| JournalProgress.FailedRoundReplays | hub_gateway.py:284-296 | a round whose transaction fails stores nothing and sends the agent back to what was last acknowledged, on a clear connection |
| JournalProgress.RestartReplays | agent.py:211-217 | after a timeout, an exit or any other failure reading again makes the same batch |
| JournalProgress.CatchesUpIff | agent.py:199-277 | from every reachable state some schedule stores every usable entry of the journal if and only if the hub accepts each of those not stored yet |
| JournalStream.PrefixNeverShrinks | app/db.py:1140-1159 | the prefix and the rows only grow, though the hub's cursor may step back |
| Sorting.SortSorts | app/vpnlog.py:309-312 | sorting yields the same elements in order |
| Sorting.SortStable | app/vpnlog.py:280-281 | and keeps ties in their order |
| Sorting.TwoPasses | app/vpnlog.py:280-281 | a second pass orders by its key first and by the first pass within it |
| Sessions.BuildSessions | app/vpnlog.py:307-404 | the event loop computes the listed sessions |
| Sessions.CloseBefore | app/vpnlog.py:317-332 | at an observation gap exactly the sessions that had begun by then end, and their peers are remembered |
| Sessions.CloseAll | app/vpnlog.py:340-347 | the loop that ends every open session lists each once, in order |
| Sessions.AtGapNext | app/vpnlog.py:318-331 | one round of the loop at a gap |
| Sessions.PutKeepsPlace | app/vpnlog.py:366-368 | a client that connects again keeps its place among the open sessions, a new one comes last |
| Sessions.FormatTells | app/vpnlog.py:157-172 | the text shown tells the length to the second below an hour and to the minute from then on; there is none if the end is before the start |
| Sessions.DurationKnownIff | app/vpnlog.py:394-402 | a duration is shown if and only if start and a logged end are known, in that order, and no clock change lies behind the start and up to the end; and it is the time between them |
| SessionHistory.CutIsNotOpen | app/vpnlog.py:369-372 | a peer remembered from a gap has no open session, so skipping its disconnect hides nothing |
| SessionHistory.OrphanIs | app/vpnlog.py:369-387 | the lookup at a disconnect decides exactly whether it ends a standing connect |
| SessionHistory.StepKeepsInv | app/vpnlog.py:316-387 | after each event the open sessions are the connects that still stand, the remembered peers those cut off in a gap and not back |
| SessionHistory.SessionsAreExact | app/vpnlog.py:307-393 | the sessions are exactly what the history shows: per connect its first ending event, per orphaned disconnect one entry, nothing else and nothing twice |
| SessionHistory.BuiltIsExact | app/vpnlog.py:307-404 | the same for the sorted list |
| SessionHistory.ConnectsAreConserved | app/vpnlog.py:313-404 | sessions with a start correspond one to one to connects, with client, time and address; each other session comes from exactly one orphaned disconnect |
| SessionHistory.OngoingIsTheLastConnect | app/vpnlog.py:388-393 | an ongoing session is its client's last connect, and a client has at most one |
| SessionHistory.ClientSessionsAreDisjoint | app/vpnlog.py:307-393 | start is not after end, and of two sessions of a client one is over when the other starts |
| SessionHistory.ListIsOrdered | app/vpnlog.py:261-281 | ongoing sessions first, then the latest start first and sessions without one last, ties in their order, nothing lost |
| SessionHistory.TimelineIs | app/vpnlog.py:309-312 | log and gaps in one line: nothing lost, time never goes back, at one moment gaps come first, and the log otherwise keeps its order |
| SessionHistory.SessionTells | app/vpnlog.py:317-393 | each session repeats client, time, address and relay address of its own event, and its ending names an event behind it that did end it; an ongoing one has none |
| SessionHistory.DurationsAreLogged | app/vpnlog.py:382-402 | in the built list a duration is shown for exactly the sessions with a start and a logged end and no clock change within |
| PeakLoad.PeakConcurrency | app/vpnlog.py:484-527 | every bucket holds the greatest number of sessions online at an instant of it, and there are as many buckets as whole steps |
| PeakLoad.BucketPeak | app/vpnlog.py:505-526 | the sweep over one bucket finds the pointwise maximum |
| PeakLoad.Sweep | app/vpnlog.py:522-525 | running count and peak over the sorted edges |
| PeakLoad.EdgesCount | app/vpnlog.py:508-512 | arrivals minus departures up to an instant is the number of half-open intervals that contain it |
| PeakLoad.CountReaches | app/vpnlog.py:513-525 | no running count exceeds the count at some instant, because departures are processed first at a tie |
| PeakLoad.RunningNeverNegative | app/vpnlog.py:523-525 | the running count never drops below zero |
| PeakLoad.ClippedCounts | app/vpnlog.py:502-504 | clipping sessions to the chart's range loses nothing inside it |
| PeakLoad.LoadCountsConnects | app/vpnlog.py:490-504 | the load at an instant is the number of connects in the log that hold then: until the logged or estimated end, while ongoing until the present moment, and not at all if the end is unknown |
| PeakLoad.LoadIsAtMostClients | app/vpnlog.py:490-504 | at every instant at most as many sessions are online as there are clients |
| PeakLoad.PeakIsAtMostClients | app/vpnlog.py:459-527 | so no reported peak exceeds the number of distinct clients |
| DayChart.Days | app/static/js/client-detail-page.js:611-618 | the days are consecutive, each ends at the midnight after its start, and they reach to the end of the range |
| DayChart.Merge | app/static/js/client-detail-page.js:624-631 | merging yields separate intervals that cover exactly the same instants |
| DayChart.AddUp | app/static/js/client-detail-page.js:632-637 | each bucket, updated in place, ends with the sum of its overlaps |
| DayChart.SessionTimeline | app/static/js/client-detail-page.js:604-637 | each bar is the number of instants of its day, within the range, that a completed session without remarks covers |
| DayChart.OverlapIsSize | app/static/js/client-detail-page.js:632-637 | the overlaps of separate intervals add up to the size of their union |
| DayChart.BarFitsItsDay | app/static/js/client-detail-page.js:624-637 | no bar is longer than its own day |
| DayChart.BarsAddUp | app/static/js/client-detail-page.js:611-637 | the bars add up to exactly the connected time in the range |
| DayChart.OverlapsAddNothing | app/static/js/client-detail-page.js:624-631 | further records leave a bar as it is if and only if they cover no further instant of it |
| StatusCache.Cache.Replace | app/db.py:632-721 | the snapshot drops unlisted rows and upserts the others, keeping session columns younger than its start stamp if it has one |
| StatusCache.SessionOfListed | app/db.py:659-683 | a listed client, however often it is listed, shows what the snapshot read about it, unless a start stamp tells that the stored session is younger |
| StatusCache.Cache.Push | app/db.py:724-752 | a push clears every row and then applies its sessions by name without regard to case |
| StatusCache.PushShows | app/db.py:724-752 | after a push a client shows what was said last under its name, letter case aside, or is offline; nothing else of its row changes |
| StatusCache.LastLineWins | app/db.py:636-706 | of several lines for a name the last one's expiration and other columns are stored |
| StatusCache.StampMovesIff | app/db.py:684-699 | a stored client's stamp moves if and only if it was just touched or some line for it shows another expiration |
| StatusCache.StampOfDistinctNames | app/db.py:684-706 | with one line per name exactly the listed clients remain, as listed, and the stamp moves only when the row is new, its expiration changed or it was just touched |
| StatusCache.RepeatedNameAlwaysMoves | app/db.py:684-699 | a name listed with two expirations moves its stamp on every snapshot |
| StatusRaces.PushBeatsStaleIngest | app/db.py:672-683 | in every interleaving a row that existed at the latest push shows that push or an ingest that began after it |
| StatusRaces.SessionsAreNeverMixed | deploy/ingest_clients.py:43-98 | every row repeats what one write said about its client |
| StatusRaces.NewRowMayBeStale | app/db.py:700-706 | a row inserted by an ingest that began before the push is the exception |
| StatusRaces.NewRowIsStaleIff | app/db.py:672-706 | a row inserted after the push is older than the push if and only if its inserting ingest began before the push and its session has not been written since |
| StatusRaces.IngestAlone | deploy/ingest_clients.py:57-97 | an undisturbed ingest leaves rows for exactly the listed clients, unless it read an empty list it was not told to accept while rows were stored, and then changes nothing |
| StatusRaces.EmptyListRemovesIff | deploy/ingest_clients.py:57-97 | whatever happens in between, a routine ingest that read an empty list removes a row if and only if the last commit between its check and its own stored a list that was not empty |
| StatusRaces.EmptyGuardCanRace | deploy/ingest_clients.py:71-97 | with such a commit in between it wipes what was just stored |
| Broker.Hub.Publish | overview_stream.py:63-72 | every queue is extended, or collapsed to one signal and then extended |
| Broker.QueueIsBounded | overview_stream.py:63-72 | in every interleaving a queue holds at most sixteen topics |
| Broker.EndsIffSignalled | overview_stream.py:144-154 | a drain ends the stream if and only if a sign-out or an outage was published since the last one |
| Broker.DashboardSignalsArrive | overview_stream.py:149-165 | an unread snapshot, activity or resync is named in the next frame, for every role, unless that drain ends the stream |
| Broker.NothingIsInvented | overview_stream.py:149-165 | what a frame names was published, or a resync stands for it |
| Broker.FrameNames | overview_stream.py:149-165 | topic by topic: traffic, system and activity logs are named to administrators only; they, and VPN and sign-in logs for both roles, are named if and only if unread and in hand or not lost; a dashboard topic if and only if it or a resync was drained; no other topic ever |
| Broker.LogTopicArrivesIff | overview_stream.py:63-72 | in every schedule an unread log or health topic is in the next drain if and only if the stream has it in hand or no publish since its last one met a full queue |
| Broker.LogTopicCanBeLost | overview_stream.py:63-72 | a schedule that loses one |
| EventStream.Parser.Feed | app/static/js/overview-stream.js:22-34 | one chunk: every complete frame is taken out of the buffer, or the stream is given up when it is over the limit |
| EventStream.ParseInTwo | app/static/js/overview-stream.js:22-34 | parsing two pieces one after the other is parsing them together |
| EventStream.ChunksDoNotMatter | app/static/js/overview-stream.js:22-34 | cutting a text into chunks changes nothing while the buffer stays within its limit |
| EventStream.FrameParses | overview_stream.py:118-119 | a printed frame or keepalive is read back, whatever follows it |
| EventStream.StreamRoundTrip | overview_stream.py:118-119 | a printed stream, cut anywhere, yields exactly its pairs in order |
| EventStream.CutShort | app/static/js/overview-stream.js:22-34 | a stream cut off yields the pairs of its complete frames and holds back part of one frame |
| EventStream.BoundedStreamArrives | app/static/js/overview-stream.js:22-23 | when the longest frame and the longest chunk fit the limit together, nothing is ever given up |
| EventStream.GivesUpIff | app/static/js/overview-stream.js:22-23 | a chunk makes the reader give up if and only if with what is buffered it exceeds 65536 characters |
| LikeSearch.ThreePassesAreOne | app/db.py:1178-1184 | the three successive replacements quote each special character exactly once |
| LikeSearch.QuotedMatches | app/db.py:1178-1184 | a quoted term in a pattern stands for exactly itself |
| LikeSearch.SearchIsSubstring | app/db.py:1207-1213 | a value matches the search pattern if and only if the typed term occurs in it |

## Left out

- Adoption.EveryPacketKeepsItsVerdict: for chains in which every rule to adopt is in the application's own grammar (the source drops matchers it does not know and fills in a protocol), has room between its tracked neighbours (`DiscoveredOrderIff`, `TieMovesTheAdoptedRule`), and stands behind the rules left alone (`VerdictKeptIff` is exact without that); FORWARD only while PREROUTING holds nothing to adopt, because an adopted port forward adds a FORWARD half.
- Adoption.DiscoveryIsIdempotent: compares states; the result of the second call and the rules that could not be adopted are not compared.
- SelfLockout.NeverLockedOut: reads the INPUT rows the guard reads, not client blocks, and excludes discovery; `LiveVerdict.NeverCutOffIff` covers both for an INPUT chain that holds nothing but the application's own rules. Hub mode, where the guard is off, is excluded from both.
- SelfLockout.VerdictIsLive: port ranges, IPv6 and default policies are outside what the guard itself looks at.
- Reordering.RunKeepsDistinct: excludes discovery; `Ties.RunKeepsDistinctIff` covers it.
- Convergence.ConvergesIff: disable and delete, whose live step runs outside the lock, are not part of this protocol: removing one of two rules that stand in the wrong order repairs the chain, so with them no record of crossings is exact. Nor is anything claimed once a rebuild has stopped at a row that cannot be printed (`NeverHalts` says when none does). The self-lockout guard and hub mode play no role in it.
- ClientBlocks.BlocksAgreeIff: a block row is not toggled or deleted by id while requests overlap; `BlockMirror.RunKeepsBlocks` covers that for one call after the other.
- Mirror.StepKeepsMirror: claimed while every stored row can be printed; which chains a rebuild reaches when one cannot depends on the order in which a set is visited, one order per run here.
- Mirror.DiscoveryKeepsMirror: a command that can be built is taken to succeed; a port forward to a range of ports or addresses, whose FORWARD half iptables refuses, would stop every rebuild of that chain like one without a port.
- Journal.Store.HandleBatch: one stream's table and cursor; the address lookups, the device touched by a flow and the timer that ingests the same lines are not modelled.
- JournalStream.StoredIsAPrefix: cursors are entry counts; a commit that took effect but was reported as failed is the lost acknowledgement; retention pruning is not modelled.
- JournalProgress.CatchesUpIff: says what some schedule can do; how long a stream waits between retries is not modelled.
- Alone.ResyncAlone: client blocks are reapplied by `ClientBlocks` steps, which the workers see as edits from outside; in hub mode a resync goes on behind a row that cannot be printed, which workers do not model.
- Broker.FrameNames: the second frame, with the health reading for administrators, carries no topic and is left out.
- StatusCache.Cache.Replace: one clock reading per statement.
- EventStream.Parser.Feed: text decoding, JSON, the watchdog and the reconnect delay are not modelled.
- Sessions.BuildSessions: each session carries the number of its event, which the source does not store; notes are the `ending` of a session.
- A reorder onto itself ends in an exception inside the transaction; here it is refused.
- Failures of commands other than deleting an absent rule; a chain that cannot be listed; the warnings about rules that could not be adopted.
- Outer whitespace of adopted notes, digits outside ASCII in tags, shell quoting and comments of several lines in scripts.
- Removal of a client's rules, the default block of a new client, name resolution of imports beyond FORWARD commands.
- HTTP, authentication, templates, TLS, subprocesses and the rest of the browser code: plumbing around the core.
- Login throttling, the last-administrator guard and page slicing: true but easy.
