# Pi-hole fleet manager: a verified model

This project models the workers that keep a fleet of Pi-hole nodes in step: replication between nodes, the extra DHCP
scopes and their records, health escalation, the daily rotations, DHCP failover, and snapshots. It proves what those
workers promise over every input and every run. `dafny verify dfyconfig.toml` checks it.

## How the system is modelled

A node is an entry of a map from addresses to node states. A write to a node lands exactly or has no effect; which
calls succeed is a parameter of every operation, so the theorems hold for every pattern of failures unless they name
the calls that must succeed. Times, the order in which a Python set is walked, and what SSH and the HTTP API report are
parameters too. Each pass of a background loop and each API action is one atomic step.

Objects and loops that change state are classes and methods; each method is proved against a function, and the
properties are proved about that function or about whole runs of it.

| area | modules |
|---|---|
| last-writer-wins ledger, paths, reservations, the run | Ledger, Recency, Paths, ScalarPaths, Reservations, MergeRun, Replicator |
| whole histories of runs: recency, convergence, exactly where they stop | Visits, Lapses, RunHistory, RunRecency, RunIdle, RunLapses, LapseInstances |
| groups, clients, adlists and overrides, matched by name | GroupNames, GroupMerge, GroupAgreement, ItemAgreement, Reconciliation |
| dnsmasq scopes as text | DnsmasqConf |
| VLAN store, addresses, the gate before a push, DNS records | Ipv4, Vlans, Store, Validate, Hostnames, ExternalDhcp |
| health escalation, rotations, failover | Monitor, Calendar, DailyRotation, Updater, Gravity, DhcpFailover |
| snapshots, restore, clone, retention, `.env` | Snapshot, Recovery, Retention, HostEnv |
| shared vocabulary | Common, Text, Sorting |

## What the code does that its descriptions do not say

- `_merge_run` and `_check_drift` use `nodes` both as the imported module and as a local (workers/replication.py:562
  and 573, 709 and 719), which raises on first use. The intended meaning is modelled: the fleet list first, the
  reachable list after.
- "Whichever node changed most recently" holds on a fixed list of reachable nodes for an enabled path that all nodes
  have, and for a reservation that some node has at every run, as long as no run raises
  (`RunRecency.PathRunsHonourEdits`, `RunRecency.MacRunsHonourEdits`). After any history the next run tells edits from
  the rest exactly when the saved ledger has every node as it was left (`RunLapses.StampsTrueIff`).
- A node that misses a run wins with its old value when it returns (`Recency.ReturningNodeWins`,
  `Lapses.ChangedListTellsEdits`).
- A reservation that no node has is not looked at, so its ledger entry goes stale: taken off everywhere by hand and put
  back on one node, it is wiped (`LapseInstances.PutBackIsLost`, `RunLapses.SurvivesIff`).
- A reservation whose second field is no address makes a run raise once a table has to be written, after the settings
  were pushed and before the ledger is saved; an older edit can then beat a newer one
  (`LapseInstances.RaisedRunLosesEdit`, `RunRecency.RaisesIff`).
- Groups, clients, adlists and overrides have no recency: the first node in fleet order that has the item wins, and
  removals do not replicate (`GroupMerge.FirstPresentWins`).
- Rendering a parsed snippet is the identity on the text only for upper-case macs (`DnsmasqConf.RenderAgain`).
- The predicted date of the next slot is one day early in one case, which needs a day of the year remembered from an
  earlier year (`DailyRotation.PredictionIsExact`, `DailyRotation.ClashIsReached`).
- A restore reports success when the target's groups could not be read again, and a clone when the groups of either node
  could not; both then lose group assignments (`Snapshot.UnreadGroupsAreLost`, `Recovery.CloneCanLoseGroups`). A capture
  takes a part that cannot be read for an empty one (`Snapshot.CaptureReproducesIff`).
- An external sync saves the published addresses even when a node failed, so that node keeps a record until its address
  is published again and a later sync reaches the node (`ExternalDhcp.PublishedIff`).
- The reboot quorum counts entries of the fleet list, which may name an address twice
  (`Monitor.QuorumIffVotersOnce`).
- `write_vars` appends a key that contains `=` again on every call (`HostEnv.UpdateIsIdempotent`).

## Model

| member | source | states |
|---|---|---|
| Ledger.PickWinner | workers/replication.py:237-263 | re-stamps exactly the nodes whose value moved since the ledger last saw it; the winner is the first node with the latest stamp, a present value before an absent one; the stale nodes are those whose value is not the winner's |
| Ledger.Leader | workers/replication.py:260 | the index `max` returns: no node outranks it and it outranks every node before it |
| Ledger.LoneChangeWins | workers/replication.py:237-263 | when one node alone changed since the last run its value wins, a removal too |
| Recency.StampsHaveAuthors | workers/replication.py:237-263 | for a value that every run looks at and saves, over every history of edits and runs with any pushes failing, each stamp in the ledger is the time of the run that first saw the window of edits which authored the value the node holds: pushes copy stamps and never make one |
| Recency.LatestEditWins | workers/replication.py:252-263 | for a value that every run looks at and saves, and strictly increasing run times, the winner of every run carries the stamp of the latest window in which any edit showed, and that window authored its value |
| Recency.WinnerIsStable | workers/replication.py:249-263 | after a run, a run without edits picks the same entry and is behind on exactly the nodes that refused the push |
| Recency.QuietRunsConverge | workers/replication.py:610-624 | for such a value, without edits the same entry wins in every later run and a node stays behind exactly until it has accepted one push |
| Recency.ConvergedRunIsIdle | workers/replication.py:610-624 | once every stale node has accepted one push all nodes hold the winner, and the next run pushes nothing and changes neither fleet nor ledger |
| Recency.ReturningNodeWins | workers/replication.py:252-259 | one scenario under a changing list: a node that missed a run is stamped as new when it returns, so the value it still holds wins over everything edited since |
| Lapses.ChangedListTellsEdits | workers/replication.py:237-263 | after a run over one list of nodes, a run over another stamps exactly the nodes edited in between, whatever is edited, if and only if it goes over nodes of the first list only |
| Lapses.StampsTellEdits | workers/replication.py:245-250 | a run stamps exactly the edited nodes, whatever is edited, if and only if the ledger has every node of the run with the value it was left with |
| Lapses.EditWins | workers/replication.py:252-263 | and then, if anything was edited, an edited node's entry wins |
| Lapses.PresentWinsIff | workers/replication.py:237-263 | a present value wins exactly when some node has one that the ledger does not record there, or every node is as recorded and the recorded winner is present |
| Paths.WalkPath | workers/replication.py:280-286 | the part-by-part walk finds exactly what reading by path finds, and fails where a part is missing or not a dictionary |
| Paths.GetSet | workers/replication.py:289-294 | a path reads back what was written to it |
| Paths.GetSetApart | workers/replication.py:289-294 | writing one path leaves every path that neither leads through it nor is led through by it |
| Paths.SetSet | workers/replication.py:289-294 | a second write to a path replaces the first |
| Paths.SetGet | workers/replication.py:280-294 | writing back what was read changes nothing |
| Paths.PatchIsSetPath | workers/replication.py:612-614 | sending the nested body that `_set_path` builds from an empty dictionary changes exactly its one path on the node |
| ScalarPaths.ManagedIff | workers/replication.py:36-112 | there are 37 managed paths: those of dhcp, dns, misc and resolver, and two in each of three sections below dns |
| ScalarPaths.ScalarPathsApart | workers/replication.py:36-112 | no managed path is a prefix of another or of the reservations' path |
| ScalarPaths.EnabledPathsApart | workers/replication.py:553 | so any selection of managed paths can be replicated one by one |
| MergeRun.ScalarRunIsRound | workers/replication.py:599-624 | each enabled path that all nodes have goes through exactly one round of the ledger protocol, with values fetched at the start and pushes to the live nodes; a path missing on a node is left alone |
| MergeRun.ScalarRunFrame | workers/replication.py:599-624 | every other path of every node, the reservations' ledger and every node outside the run are unchanged |
| MergeRun.AllAcceptedAgree | workers/replication.py:599-624 | when all pushes succeed all nodes hold, at every enabled path they all had, the value some node held before |
| Reservations.ReadHosts | workers/replication.py:299-306 | the table has a mac with a reservation exactly when the last line that gives the mac gives that reservation: the mac in upper case, the address and the hostname without blanks around them, further fields ignored, nothing from a line without an address |
| Text.Blanks | workers/replication.py:303-305 | the characters that are taken off around a field |
| Reservations.TableIff | workers/replication.py:299-306 | the same of the specification, for any lines |
| Reservations.PaddedGives | workers/replication.py:299-306 | a line as written by hand, its mac in any case and blanks around its fields, gives that reservation |
| Reservations.ParseUndoesRender | workers/replication.py:299-312 | parsing the rendered lines gives back the table, whatever the order of the dictionary |
| Reservations.RenderedLines | workers/replication.py:309-312 | the rendered text is one line for each reservation, the higher address first, with the mac, the address and, if there is one, the hostname between commas |
| MergeRun.MergedIsWinners | workers/replication.py:626-640 | the merged table has exactly the macs whose winner is present, with the winner's reservation |
| MergeRun.BehindIffStale | workers/replication.py:639-642 | a node's table differs from the merged one exactly when the node is stale for some mac |
| MergeRun.HostRunTables | workers/replication.py:641-652 | a node that accepts the push, or needs none, parses back to the merged table; any other keeps its own |
| MergeRun.HostRunIsRound | workers/replication.py:626-655 | every mac goes through exactly one round of the ledger protocol, the nodes that accept the table being the ones that accept the push |
| MergeRun.HostRunFrame | workers/replication.py:641-643 | a reservation push touches no other path |
| MergeRun.NewMacSurvives | workers/replication.py:252-263 | a mac the ledger does not know is never wiped, even when one node alone has it |
| MergeRun.NewLineSurvives | workers/replication.py:252-306 | so of the lines a node holds, however they are written: a mac they give that the ledger has never seen is in the merged table, and every node that accepts it reads it back |
| MergeRun.RemovalReplicates | workers/replication.py:626-652 | one run: a mac absent on one node whose ledger entry there is no absence, and as recorded on all others, is removed everywhere |
| RunHistory.PathIsManaged | workers/replication.py:599-657 | a run that has the path enabled and found on all nodes, and saves, takes it through one round of the ledger protocol; any other run leaves its ledger entry as it was |
| RunHistory.MacIsManaged | workers/replication.py:626-657 | the same for a mac that some node has: a run at which no node has it leaves its entry as it was |
| RunHistory.Replays | workers/replication.py:599-657 | for a path or a mac, over every history of runs on a fixed list, runs that raise, skip the setting or lose pushes included, what the ledger has is what the runs that looked at it and saved would have left by themselves, and such a run finds, picks and leaves what they do |
| RunHistory.ChangeWins | workers/replication.py:599-657 | over every such history the winner comes from the latest window between two runs that looked and saved in which any node changed; what a run that raises has pushed counts as such a change, and while no node has a mac its window stays open |
| RunRecency.RaisesIff | workers/replication.py:641-657 | with two nodes and reservations enabled, a run saves its ledger exactly when every merged reservation has a valid address or no node has to be written |
| RunRecency.AddressedRunSaves | workers/replication.py:309-312 | so a run with something enabled saves when no reservation of a reachable node has an invalid address |
| RunRecency.RunsHonourEdits | workers/replication.py:547-657 | over every history of runs on a fixed list that all look at a path or a mac and save, the winner is the entry of the latest edit, whichever pushes failed |
| RunRecency.PathRunsHonourEdits | workers/replication.py:599-657 | so for a path that every run has enabled and finds on all nodes, where every reservation address is valid or reservations are off |
| RunRecency.MacRunsHonourEdits | workers/replication.py:626-657 | and for a mac that some node has at every run, where every reservation address is valid |
| RunRecency.RunsConverge | workers/replication.py:599-655 | for such a path or mac, without edits after run q every later run picks what run q picked, and the nodes behind are those of run q less those that have accepted a push since |
| RunIdle.IdleIffSettled | workers/replication.py:547-657 | a run that saves and whose pushes are all accepted changes neither a node nor a ledger exactly when every enabled path all nodes have, and every reservation, is the same on all nodes and recorded for exactly these nodes |
| RunIdle.SecondRunIsIdle | workers/replication.py:547-657 | one run suffices: after a run that saves and whose pushes are all accepted, the next run with the same options changes no node and no ledger and saves, at whatever time and whoever would accept |
| RunLapses.StampsTrueIff | workers/replication.py:237-263 | for a path or a mac, after any history, runs that raised included, the next run stamps exactly the edited nodes whatever is edited, if and only if the saved ledger has every node with the value it was left with |
| RunLapses.SurvivesIff | workers/replication.py:626-657 | after any history, a reservation survives the run exactly when some node has it other than the ledger records it there, or every node is as recorded and the recorded winner is present |
| RunLapses.RemovalSinceLastRun | workers/replication.py:626-657 | a mac that the last run looked at and saved, removed since on one node and left alone on the others, is removed everywhere |
| LapseInstances.PutBackIsLost | workers/replication.py:628 | both nodes have a reservation, then neither, then the first has it again unchanged: the absence wins and the first loses it, although putting it back is the latest edit |
| LapseInstances.RaisedRunLosesEdit | workers/replication.py:643 | a run pushes an edited setting and raises on a reservation without a valid address; the next run then prefers that older edit to a newer one on another node, and writes it over the newer one |
| Replicator.Worker.CollectValues | workers/replication.py:600-606 | the value of a path on every node, or not found as soon as one node lacks it |
| Replicator.Worker.RunPath | workers/replication.py:599-624 | one path's step on the live fleet and the ledger is the protocol's step |
| Replicator.Worker.PushStale | workers/replication.py:611-616 | each accepted push sets the one path on its node and copies the winner's stamp; a refused one changes nothing |
| Replicator.Worker.RunHosts | workers/replication.py:626-655 | the mac-keyed merge changes fleet and ledger as one round per mac does, and reports the case where rendering raises |
| Replicator.Worker.PushTables | workers/replication.py:641-655 | nodes equal to the merged table are not written; an accepted push copies the stamp of every mac the node was stale for |
| Replicator.Worker.Run | workers/replication.py:547-669 | the run goes over exactly the listed nodes that are up and not in maintenance, in fleet order, and changes fleet and ledgers as the protocol does; every other node keeps its configuration and gains no ledger entry; a run that raises saves no ledger |
| Replicator.RunNodesTakePart | workers/replication.py:562-575 | the nodes of a run are the entries of the list that take part, all of them and in the order of the list |
| Replicator.SuccessfulRunAgrees | workers/replication.py:599-655 | after a run whose pushes all succeed, with reservations on or off, the reachable nodes agree on every enabled path they all have, on the reservations if those are on and the run saved, and every other path of every node reads as before |
| Replicator.FleetRunAgrees | workers/replication.py:547-655 | said of the fleet list, maintenance and reachability: with two nodes taking part and every push accepted, all nodes that take part agree on every enabled path they all have, and on the reservations if those are on and the run saved; every other node is left alone |
| Replicator.LackingPathStays | workers/replication.py:599-606 | a managed path that one node of a run lacks reads as before on every node and keeps its ledger entry |
| GroupNames.TranslationKeepsKnown | workers/replication.py:411-424 | group names to a node's own ids and back keep exactly the names known on that node, in order, and the rest is exactly what is reported missing |
| GroupMerge.FirstPresentWins | workers/replication.py:371-374 | because tuples come back from the saved ledger as lists, every node that has an item is stamped by every run: the first node that has it wins whatever was edited where, and a removed item comes back |
| GroupMerge.Reconciler.MergeGroup | workers/replication.py:369-385 | one group's turn: winner, posts to the stale nodes, copied stamps, and the view refreshed where the second read succeeds |
| GroupMerge.Reconciler.MergeItem | workers/replication.py:401-429 | one client's turn (and, with PUT for POST, one adlist's or override's): names to each stale node's own ids, missing names reported, accepted pushes stamped |
| GroupMerge.Reconciler.Merge | workers/replication.py:352-428 | groups first, then items, each only with two readable nodes; the ledger is saved and comes back as lists |
| GroupMerge.GroupStamps | workers/replication.py:374-385 | after a group's turn its ledger entry has the winner for each node that differed and accepted the push and what was observed for each other, and no other group's entry is touched |
| GroupMerge.ItemStamps | workers/replication.py:401-429 | the same of an item's turn |
| GroupAgreement.PostGroupAt | workers/replication.py:376-378 | posting a group sets its value, keeps every id, and touches no other group |
| GroupAgreement.GroupPhaseSettles | workers/replication.py:367-385 | when the calls succeed every group ends, on every node, with the value of the first node that had it; no group changes its id |
| ItemAgreement.ItemStepSettles | workers/replication.py:401-417 | an item reads back on a node as the winner less the group names that node does not know |
| ItemAgreement.ItemStepReports | workers/replication.py:411-414 | something is reported missing exactly when a node that has to be pushed to lacks one of the winner's names |
| ItemAgreement.ItemPhaseSettles | workers/replication.py:483-545 | the same over all items, which is the whole of the adlist and the override merge: every node shows the first node's version less unknown names, and nothing is reported exactly when no name is unknown |
| Reconciliation.RunReconciles | workers/replication.py:352-428 | when all nodes can be read, all calls succeed and items use only their own node's groups: no group is missing anywhere, and all nodes read back the same groups and the same items under the same group names although ids differ |
| Reconciliation.TooFewReadable | workers/replication.py:362-366 | with fewer than two nodes whose groups can be read nothing changes |
| Reconciliation.GroupsWithoutItems | workers/replication.py:362-394 | the groups do not wait for the items: with the groups of all nodes readable and the items of fewer than two, the groups settle, no item changes, and the ledgers are saved |
| Reconciliation.EachNodeByItself | workers/replication.py:352-428 | whatever calls fail, on every node a group or item changes only by a push that the node accepted; a node that is not listed or whose groups cannot be read is left as it was, and one whose items cannot be read keeps them |
| Reconciliation.OnlyReadable | workers/replication.py:359-366 | a run is a run over the nodes whose groups can be read |
| GroupMerge.LoadedIsSaved | workers/replication.py:212-234 | a loaded ledger has the entries that were saved, with their times and contents; only their freshness is lost |
| Reconciliation.SavedIsLoaded | workers/replication.py:212-234 | a saved ledger is what the next run's theorems assume of a loaded one |
| DnsmasqConf.Render | workers/pihole_push.py:91-112 | rendering raises exactly when an extra VLAN's subnet or one of its host addresses is malformed; otherwise, for fields without separators or line breaks, the text shows every extra VLAN: its range with the netmask of its block, its gateway, its domain and reverse domain, and all its hosts by descending address |
| DnsmasqConf.TextShowsScopes | workers/pihole_push.py:91-112 | the same of the specification, one VLAN at a time, line by line |
| DnsmasqConf.ParseConf | workers/pihole_push.py:140-179 | the line-by-line reader with its current scope gives the scopes that the line grammar describes |
| DnsmasqConf.BlockPattern | workers/pihole_push.py:119 | the first line of a scope is read exactly when it has its parts, with blanks wherever the pattern lets them be; where there are only blanks before the parenthesis the name is one blank |
| DnsmasqConf.RangePattern | workers/pihole_push.py:120 | a range line is read exactly when it has that form, with any netmask |
| DnsmasqConf.OptionPattern | workers/pihole_push.py:121 | a gateway line is read exactly when it has that form |
| DnsmasqConf.ServerPattern | workers/pihole_push.py:123 | a domain line is read exactly when it has that form |
| DnsmasqConf.HostPattern | workers/pihole_push.py:122 | a host line is read exactly when it has that form; a hostname may itself hold commas |
| DnsmasqConf.PatternChars | workers/pihole_push.py:119-123 | the characters the patterns allow in an address, a mac and a prefix |
| DnsmasqConf.LineBreaks | workers/pihole_push.py:145 | the ten characters at which splitlines ends a line |
| DnsmasqConf.SplitsAtBreak | workers/pihole_push.py:145 | a line ends at its first break; a carriage return and its line feed are one break |
| DnsmasqConf.SplitUndoesJoin | workers/pihole_push.py:112-145 | splitting joined lines gives the lines back |
| DnsmasqConf.ParseUndoesRender | workers/pihole_push.py:91-179 | for fields without separators or line breaks, reading the rendered text gives the extra scopes in order with every field the text carries, macs in upper case and hosts by descending address |
| DnsmasqConf.RenderAgain | workers/pihole_push.py:91-179 | rendering what was read gives the identical text exactly when every mac was in upper case |
| Ipv4.ParseAddressText | workers/store.py:45-50 | every 32-bit number is the value of its own dotted text |
| Ipv4.AddressTextParse | workers/store.py:45-50 | a valid text is the only valid text of its address, so comparing strings compares addresses |
| Ipv4.ParseNet | workers/store.py:53-54 | a subnet and prefix name a block exactly when the address is valid and the prefix is 0 to 32; the block then holds that address, host bits cleared |
| Ipv4.BlockSize | workers/store.py:53-58 | a block has 2 to the power of 32 less the prefix addresses and starts at a multiple of that, and its netmask is what is left of 32 bits without the host part |
| Ipv4.ParsedBlock | workers/store.py:53-54 | the block of a subnet and prefix is the one of that size around the address |
| Ipv4.InBlock | workers/store.py:53-54 | membership by masking is lying between the network and the broadcast address |
| Ipv4.NestedOrDisjoint | workers/store.py:53-54 | two prefix blocks are nested, the longer prefix inside, or share no address (section 3.1 of RFC 4632) |
| Ipv4.OverlapsIff | workers/store.py:212 | comparing the four ends decides whether two blocks share an address |
| Store.Slugify | workers/store.py:162-164 | the id is never empty and has only digits, small letters and dashes |
| Store.SlugIsRuns | workers/store.py:162-164 | the id made of a name is its runs of letters and digits, in small letters, with a dash between them, or the word vlan where there are none |
| Store.FreshId | workers/store.py:196-202 | the loop ends, with the base or the base and the smallest free number from 2 on |
| Store.FirstCollision | workers/store.py:204-217 | an error exactly when an extra VLAN shares an address or has the tag |
| Store.CheckFields | workers/store.py:185-189 | no error exactly when gateway and range ends are valid and inside the subnet |
| Store.ValidMacIff | workers/store.py:15 | a valid mac has seventeen characters, every third a colon and all others hex digits |
| Store.ValidDomainIff | workers/store.py:16 | a domain is valid exactly when it is a letter or digit, labels of at most 62 letters, digits and dashes that each end in a dot, and 1 to 63 more such characters, before a line break at its end if there is one, which the pattern lets through |
| Store.AcceptableIff | workers/store.py:167-217 | what is submitted passes all checks exactly when the name and the three addresses are there and inside the block, the domain is valid, and no extra VLAN shares an address or has the tag |
| Store.VlanStore.EnsurePrimary | workers/store.py:88-104 | the primary scope is put first once and never again |
| Store.VlanStore.CreateVlan | workers/store.py:167-234 | accepted exactly when well formed and disturbing no extra VLAN, then appended with a fresh id; ids stay unique, subnets apart, hosts inside; else nothing changes |
| Store.VlanStore.ImportVlan | workers/store.py:237-257 | accepted exactly when the id is new and no extra subnet shares an address; invariants kept |
| Store.VlanStore.UpdateVlan | workers/store.py:260-282 | one VLAN's submitted fields change and nothing else; invariants kept |
| Store.VlanStore.DeleteVlan | workers/store.py:285-296 | exactly the named VLAN goes, never the primary; invariants kept |
| Store.VlanStore.AddOrUpdateHost | workers/store.py:301-338 | accepted exactly when the address is in the subnet and nobody else's anywhere; the mac's old reservation is replaced; addresses stay unique and inside |
| Store.VlanStore.DeleteHost | workers/store.py:341-353 | exactly the address's reservation goes, an error exactly when there is none |
| Store.VlanStore.UpdateHostMac | workers/store.py:356-374 | the first reservation of the address gets the mac, all else stays |
| Store.RunAll | workers/store.py:88-374 | every sequence of operations keeps ids unique and extra subnets disjoint, and with well-formed imports keeps host addresses unique per VLAN and inside their subnet |
| Store.AddressesAreUnique | workers/store.py:323-335 | then no address is reserved in two extra VLANs |
| Validate.ValidateVlans | workers/validate.py:12-49 | the errors are those of every extra scope in order and then of every pair in order |
| Validate.CheckScope | workers/validate.py:23-40 | one scope's errors: its subnet alone when malformed, else its three fields and its hosts |
| Validate.ProblemsAre | workers/validate.py:12-49 | a problem is reported exactly when it is one: a malformed subnet alone, or a field or host that is no address or outside, or a pair of extra scopes that share an address |
| Validate.GateIffSound | workers/validate.py:12-49 | no errors exactly when every extra VLAN's gateway, range ends and hosts lie in its subnet and no address belongs to two of the subnets |
| Hostnames.ComputeEntries | workers/hostnames.py:41-53 | the nested loops give one record for every static host with a name in an extra VLAN, in order |
| Hostnames.EntriesAre | workers/hostnames.py:41-53 | there is a record for each static host with a name in an extra VLAN and no other |
| Hostnames.EntriesInOrder | workers/hostnames.py:41-53 | VLAN by VLAN, and host by host within one |
| Hostnames.EntriesAreManaged | workers/hostnames.py:29-53 | for a validated set every computed record belongs to one of the set's own subnets |
| Hostnames.MergePartition | workers/hostnames.py:56-63 | for a validated set the unmanaged records stay in order and the managed ones become exactly the computed entries |
| Hostnames.KeptIff | workers/hostnames.py:25-63 | a record is in the merge exactly when it is a computed entry, or it was there and its first word is no valid address of an extra VLAN's subnet |
| Hostnames.MergeRaisesIff | workers/hostnames.py:25-26 | merging raises exactly when an extra VLAN has a malformed subnet |
| Hostnames.MergeIdempotent | workers/hostnames.py:56-63 | merging a second time changes nothing |
| Hostnames.MergeForgets | workers/hostnames.py:56-63 | merging for w after v is merging for w alone whenever w's subnets cover v's |
| Hostnames.ForgetsIffCovers | workers/hostnames.py:56-63 | and that holds for all record lists exactly when they cover them |
| Hostnames.SortedEqual | workers/pihole_push.py:83 | comparing the sorted lists is comparing them up to order |
| Hostnames.Node.SyncHostnames | workers/pihole_push.py:75-86 | writes exactly when the merge differs by more than order, leaves the merge or what was there, and reports each failure |
| Hostnames.SyncTwice | workers/pihole_push.py:75-86 | for a validated set a repeated sync writes nothing, and the unmanaged records are untouched |
| ExternalDhcp.Publisher.SyncNow | workers/external_dhcp.py:144-175 | visits the nodes in order, merges on each that can be read and written, and saves the published addresses even when a node failed |
| ExternalDhcp.VisitEach | workers/external_dhcp.py:155-164 | with distinct nodes each reached node gets its own merge once and every other node is untouched |
| ExternalDhcp.MergeKeepsIff | workers/external_dhcp.py:130-138 | a merge keeps a record exactly when the last sync did not publish its first word, and a blank one always |
| ExternalDhcp.FreshLinesAre | workers/external_dhcp.py:137 | the records of a sync are one for each client with a valid address, in their order |
| ExternalDhcp.PublishedExactly | workers/external_dhcp.py:130-175 | over any sequence of syncs that all reach a node, its records are its original ones whose address was not published before, in order, then the latest valid entries |
| ExternalDhcp.PublishedIff | workers/external_dhcp.py:130-175 | over any sequence of syncs of which a node missed any but the last, its records are those it would have had without a miss, if and only if all it was given was published again at or after that sync and before one that reached it, and its own records naming published addresses name dropped ones |
| ExternalDhcp.OneMissIff | workers/external_dhcp.py:130-175 | for one missed sync: exactly when every address of the sync just before it is published again by the missed sync or a later one before the last |
| HostEnv.EnvFile.WriteVars | workers/host_env.py:16-38 | the loop that overwrites lines, pops keys and appends the rest writes the updated text, and an absent file or an empty update changes nothing |
| HostEnv.WrittenLines | workers/host_env.py:23-38 | the first line of each updated key holds its new value, keys without a line are appended once in order, every other line keeps content and position, apart from the break added to an unterminated last line |
| HostEnv.ReadsBack | workers/host_env.py:23-38 | what is read next is line for line what was written |
| HostEnv.TranslateBreaks | workers/host_env.py:16-22 | text mode turns a carriage return, alone or with its line feed, into a line feed and changes nothing else |
| HostEnv.UpdateIsIdempotent | workers/host_env.py:16-38 | a second identical update leaves the file as it is exactly when no key contains '=' |
| Monitor.CheckNode | workers/monitor.py:156-171 | down is reported only after the confirm attempts have all failed, and at least one; the first success is reported at once |
| Monitor.Monitor.QuorumOk | workers/monitor.py:174-186 | true exactly when two entries of the fleet list, neither the failing node nor the VIP, look healthy |
| Monitor.Monitor.Visit | workers/monitor.py:268-355 | one check of one node updates every counter as the escalation prescribes |
| Monitor.Monitor.Pass | workers/monitor.py:262-355 | one pass checks every fleet entry in order and then the VIP, unless the list names it, with what each check meets; the state after it is that of those checks |
| Monitor.RecordedChecks | workers/monitor.py:268-274 | a check is remembered behind the earlier ones of its node, the last hundred at most, and no other node's are touched |
| Monitor.FailuresAreDated | workers/monitor.py:284-300 | in every run the time since when a node fails is that of the first of its checks that failed without a success since |
| Monitor.RunAll | workers/monitor.py:262-355 | the monitor object reaches by its own methods the states that the theorems are about, over any run |
| Monitor.FailureConsequence | workers/monitor.py:303-355 | what a failed check leads to, read off the event log alone: a reboot exactly when one is due and two entries of the fleet list were healthy when last checked, a flag exactly when the budget is spent and none was raised |
| Monitor.EveryRunIsSafe | workers/monitor.py:262-355 | in every run, with the history cleared at any point, the counters and the latest checks are what the log says and every reboot and flag is justified by the log before it |
| Monitor.OutagesAreBounded | workers/monitor.py:301-355 | one outage has at most 1 + retries reboots, successive ones at least the set minutes apart, and at most one flag, raised only after the last |
| Monitor.OutageBudget | workers/monitor.py:301-355 | these bounds hold at every moment of every run, and the VIP is never rebooted |
| Monitor.RebootHasQuorum | workers/monitor.py:174-326 | every reboot follows at once a failed check of that node outside maintenance and is never for the VIP; when the fleet list names no address twice but perhaps that node and the VIP, two distinct other nodes of it were healthy when last checked |
| Monitor.RepeatedVoterReboots | workers/monitor.py:174-326 | for any thresholds and whatever checks were loaded, a list that names another node twice has a run that reboots although that node alone is healthy |
| Monitor.QuorumIffVotersOnce | workers/monitor.py:174-326 | so every reboot of a node under a list has two distinct healthy others behind it, in every run, exactly when the list names no address other than the node and the VIP twice |
| Calendar.YdayRepeats | workers/updater.py:247-252 | a day of the year does not come back within 365 days |
| Calendar.YdayOfYear | workers/updater.py:251 | in the Gregorian calendar the day of the year counts from the first of January of its year |
| Updater.FirstAttemptDecides | workers/updater.py:167-195 | an upgrade fails exactly when every attempt fails, else the first attempt that did not fail decides |
| Updater.Updater.RunUpgrade | workers/updater.py:167-195 | the retry loop returns that status |
| Updater.Updater.Pass | workers/updater.py:250-311 | a slot fires exactly at its hour on a day not yet marked, with a fleet and not halted; it halts in place exactly when its node is in service, answers and is out of date, and either every attempt fails or the first that does not fail upgrades it and it is not healthy; in every other case it advances by one |
| Updater.Updater.Resume | workers/updater.py:126-129 | resuming ends the halt and moves nothing else |
| Updater.SlotFailsIff | workers/updater.py:270-307 | so the slot that the rotation theorems call failing is that one |
| Gravity.Gravity.Pass | workers/gravity.py:204-232 | the gravity loop is the same rotation, advancing however its slot ends |
| DailyRotation.HaltedStandsStill | workers/updater.py:254-307 | while halted no slot fires and the position does not move, whatever the polls and fleets |
| DailyRotation.FailedNodeComesFirst | workers/updater.py:126-307 | after a failed slot nothing fires until resume, and the first slot after it is for the node that failed, if the fleet is the same |
| DailyRotation.ResumedIsDoneToday | workers/updater.py:126-130 | resuming does not bring the day's slot back: nothing more fires on its day |
| DailyRotation.OneSlotADay | workers/updater.py:254-255 | no day has two slots |
| DailyRotation.EveryNodeOnce | workers/updater.py:256-307 | any n slots in a row visit each of n nodes exactly once |
| DailyRotation.NodeSlotDay | workers/updater.py:250-307 | with a fixed fleet, no failing slot and a poll in every firing hour there is one slot every day from the first possible one, and a node's comes as many days later as it stands in line |
| DailyRotation.PredictionIsExact | workers/updater.py:133-151 | the closed form gives the day the simulated loop fires exactly when it is not asked after the hour with tomorrow's day of the year remembered from an earlier year; then the slot comes one day later |
| DailyRotation.RecentSlotIsNotAliased | workers/gravity.py:126-141 | that clash cannot happen when the latest slot is at most 364 days before tomorrow |
| DailyRotation.ClashIsReached | workers/updater.py:133-151 | and it does happen: a fresh rotation whose one slot was on a day that tomorrow shares its day of the year with, such as days 364 and 729, is in the clash |
| DhcpFailover.Enforcer.DetectVipMaster | workers/dhcp_failover.py:89-100 | the first listed node that holds the VIP |
| DhcpFailover.Enforcer.Tick | workers/dhcp_failover.py:133-173 | one tick changes state, switches and writes as prescribed, and nothing when disabled or without a master |
| DhcpFailover.EnforceAt | workers/dhcp_failover.py:156-173 | a node in maintenance, unreadable, not listed or refusing the write keeps its switch; every other follows the master |
| DhcpFailover.TickEffect | workers/dhcp_failover.py:133-173 | a tick does nothing when disabled, without a VIP or without a holder of it; otherwise the first holder becomes active, a change of it is recorded, and every listed node that is not in maintenance, can be read and accepts follows it |
| DhcpFailover.WritesAreNeeded | workers/dhcp_failover.py:156-173 | every write of a tick goes to a listed node that stood the other way, and every such node that can be read and is not in maintenance gets one |
| DhcpFailover.TickStabilises | workers/dhcp_failover.py:133-173 | from any switches, one tick that reaches every node leaves exactly the master active, and a second one writes nothing |
| DhcpFailover.SwitchDecides | workers/dhcp_failover.py:133-156 | however a run began, once switched off nothing moves, and once switched on the active node is the first holder the latest tick met |
| DhcpFailover.HistoryIsRecentMoves | workers/dhcp_failover.py:125-156 | over every run the history is the last 20 changes of the detected master, and the active node is the latest one |
| DhcpFailover.HistoryLinks | workers/dhcp_failover.py:125-156 | so it stays within 20, each entry starts where the one before ended, none moves to itself, and the last ends at the active node |
| DhcpFailover.RunAll | workers/dhcp_failover.py:104-173 | the enforcer object reaches by its own methods the states that the theorems are about, over any run of ticks and switches |
| Snapshot.PiHole.CaptureConfig | workers/backup.py:100-110 | a path with its value is captured exactly when it is managed and found, and the reservations are those of the node, or none where it has no such entry |
| Snapshot.PiHole.Capture | workers/backup.py:117-138 | nothing when the configuration cannot be read; any other part that cannot be read is captured as empty |
| Snapshot.PiHole.Restore | workers/backup.py:229-273 | the writes of a restore, each landing or failing by itself; success is reported exactly when all land |
| Snapshot.CapturedConsistent | workers/backup.py:100-110 | captured settings can be written back in any order |
| GroupNames.UnknownShown | workers/backup.py:113-114 | an id of no group is captured as its number behind a # |
| Snapshot.EachWriteByItself | workers/backup.py:229-273 | whichever writes fail, what was accepted is on the node and what was refused is there as before: every setting, the reservations, every group, client, adlist and override |
| Snapshot.RestoreReproduces | workers/backup.py:229-273 | with every write and the second read of the groups succeeding, any node ends with every captured setting, the reservations and every group, client, adlist and override under the same group names; other paths, groups, ids and items are as they were |
| Snapshot.CaptureThenRestore | workers/backup.py:100-273 | node against node: after restoring a whole capture onto any node, that node reads what the source reads at every managed path the source has and at the reservations, and has every group of the source and every client, adlist and override with the same settings and the same group names |
| Snapshot.CaptureReproducesIff | workers/backup.py:113-273 | restoring a capture reproduces the captured node on every node exactly when each part that could not be read was empty |
| Snapshot.UnreadGroupsAreLost | workers/backup.py:244-273 | where the groups cannot be read again success is still reported, and a client, adlist or override comes back with its groups exactly when it had none |
| Recovery.SplitsBack | workers/recovery.py:134 | an override's key splits into its type, its kind and its domain even when the domain contains bars |
| Recovery.JoinsBack | workers/recovery.py:134-140 | what is written under the parts of a key is read back under that key |
| Recovery.Clone | workers/recovery.py:40-144 | the writes of a clone on the target; no error is reported exactly when all reported reads and all writes succeed |
| Recovery.CloneIsRestore | workers/recovery.py:40-144 | with all reads succeeding a clone is the restore of the source's snapshot of the enabled paths, whichever writes fail |
| Recovery.PartByPart | workers/recovery.py:40-144 | a part that cannot be read stays as it was on the target, the clients too where the groups cannot be read, and every other part is cloned as if all had been read |
| Recovery.CloneReproduces | workers/recovery.py:40-144 | an error-free clone whose group lists could all be read reproduces the source for the enabled paths and leaves the rest; with the reservations' path disabled the target's reservations read as before |
| Recovery.CloneReadsAlike | workers/recovery.py:40-144 | and node against node, path by path: an enabled path of the source reads the same on both, every other managed path as before, and groups and items show the same names |
| Recovery.CloneCanLoseGroups | workers/recovery.py:72-144 | where a node's groups cannot be read a second time the clone still reports no error: a client arrives with its groups exactly when the target's were read or it had none, an adlist or override exactly when both nodes' were read again or it had none |
| Retention.ApplyRetention | workers/backup.py:145-151 | deleting file by file leaves exactly the names outside the doomed prefix and those that cannot be removed |
| Retention.StuckStay | workers/backup.py:145-151 | a file stays exactly when it is among the newest or cannot be removed |
| Retention.KeepsNewest | workers/backup.py:145-151 | exactly the newest `keep` names stay, or all if there are fewer, and nothing removed is newer than anything kept |
| Retention.NameOrder | workers/backup.py:145-151 | newer means later in the order of characters, which for timestamps of one form is the order of time |

## Left out

- Replicator.Worker.Run: does not model the read-back after a push or the list of applied changes, because they only report; the group, adlist and override merges are the separate modules.
- GroupMerge.Reconciler.Merge: models the client merge; the confirming read after a push only adds to the report and is not modelled.
- ItemAgreement.ItemPhaseSettles: PUT and POST are taken as the same create-or-update, and the domain and adlist runs differ from the client run only in that.
- Reconciliation.RunReconciles: claims one run's convergence and no recency, because the code has none there.
- Paths.GetSet: a JSON number is its canonical text, so a number and a boolean, which Python may hold equal, always differ.
- Paths.SetSet: `_set_path` is modelled on values; the cursor that aliases the nested dictionaries is not.
- Text.Upper: upper and lower case and the digit classes of the patterns are those of ASCII.
- Reservations.ParseUndoesRender: addresses are IPv4; the sort key of the code also takes IPv6.
- RunRecency.RaisesIff: an IPv6 address counts as invalid, while the code's sort key takes it and raises only where both kinds meet.
- LapseInstances.RaisedRunLosesEdit: the reservation is any text that is no IPv4 address, with the same caveat for IPv6.
- RunRecency.RunsHonourEdits: one fixed list of nodes that all answer; a list that changes is treated by Lapses.ChangedListTellsEdits.
- Store.VlanStore.EnsurePrimary: takes the primary scope as already built from the node's configuration.
- Store.FirstCollision: VLAN tags are numbers or absent.
- Store.RunAll: does not claim unique macs or unique tags, because `update_host_mac` and `update_vlan` do not check them.
- Hostnames.Node.SyncHostnames: one node; the loop over nodes around it only repeats it.
- Monitor.Monitor.Visit: the statistics fetched for a healthy node, the uptime refresh and the failure log are not modelled; reboots are events of a log.
- DailyRotation.PredictionIsExact: the loop is taken between slots, with no slot in progress.
- Updater.Updater.Pass: the version poll and the per-node history are not modelled; the manual upgrade does not touch the rotation.
- Gravity.Gravity.Pass: the comparison of domain counts is not modelled, because it does not affect the rotation.
- DhcpFailover.TickStabilises: `dhcp.active` is replicated by default, and a replication run with a second node undoes single-active DHCP; the theorem is about ticks alone.
- Recovery.Clone: ends before the VLAN push at its end, which merges VLAN records into `dns.hosts` as Hostnames describes.
- Snapshot.PiHole.Restore: the gravity run it triggers is not modelled.
- HostEnv.EnvFile.WriteVars: reading and writing the file are taken to succeed.
- HTTP, SSH, ping and dig: replaced by parameters that say which calls succeed.
- Races between threads: each loop pass and each API action is one step.
- The drift check, the sync schedule and the options files: they read and report, or gate the runs above.
- Dynamic leases merged into a VLAN's hosts, and clients assigned to a VLAN's group: short comprehensions.
- VIP detection and VIP history of the monitor, manual reboots, diagnostics: plumbing.
- NetBox import, query search, statistics, leases, web routes, notifications and activity text: no protocol of their own.
