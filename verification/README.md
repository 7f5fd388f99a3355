# Kelda: models and proofs

A Dafny model of the reconciliation core of Kelda, with proofs of what it is
meant to guarantee. `dafny verify dfyconfig.toml` checks everything.

The model has six parts.

- **Joins.** `Matching` defines what a scored match should be: sort the
  compatible index pairs by score, left index and right index, and take each
  pair whose ends are free. `Join` is the matcher with its score-0 shortcut,
  skipped pairs and early exit; `HashJoin` is the keyed matcher.
- **Cloud machines.** `Machines` has the score and how good the pairing is, with
  `RoleMatching` for graphs of roles and `FloatingIPs` for when floating IPs spoil
  it. `DesiredMachines` reads the blueprint, `CloudSync` and `BlueprintSync` are the
  two halves of a round on the machine table, `CloudKeep` says what a merge keeps
  and `BlueprintPlan` what the second half does to each row. `CloudRounds` follows
  two rounds in a row, `CloudStops` says when the second is quiet, and `CloudRuns`
  is the round as run.
- **Database.** `Database` has tables and operations. `Transactions` runs
  arbitrary transaction bodies as interleaved steps under sorted table locks,
  and `Serializability` proves them serial and free of deadlock; `Histories` says
  what they leave in the tables. `Triggers` is the alerting code, `WakeUps` the
  notification protocol around it and `WakeUpProgress` what that lets happen.
- **Election.** `TTLStore` is the expiring store, and `Election` the campaign
  protocol as a timed step system with lost and late requests.
- **Addresses.** `Addresses` (bit facts and subnets), `Blacklist`,
  `IPAllocation` and `IPUpdate` are address allocation, `IPRounds` how it ends;
  `Names` generates unique names.
- **Policy.** `Connections`, `ConnectionOrder` and `ConnectionPipeline` carry
  connections from the blueprint to every follower. `AddressText`, `AddressSets`
  and `ACL` compile them to access rules. `OpenFlow`, `FlowTables`,
  `FlowMeaning` and `PublicPorts` compile them to switch flows.

Conventions. Strings that are only compared are natural numbers. Fetched data,
random numbers, clocks and results of remote calls are parameters or arbitrary
values; a map is iterated in an arbitrary order, and every result holds for all
orders. Row IDs are unbounded integers. Panics of the source are preconditions,
except in `Transactions` and `Triggers`, where a panic stops the system or the
transaction.

Assumptions that come from the source's own setting: private IPs of masters are
distinct, and a master's role and IP stay fixed once set; a consumer of a trigger
reads every table it watches after each token; SHA-256 is injective; switch port
numbers of different interfaces differ. A container's hardware address is
modelled as determined by, and determining, its IP.

Where code and documentation differ, the model follows the code. `HashJoin` drops
all but the last left element with a given key, so it partitions its left input
only when keys are distinct (`HashJoin.LeftKeysAccounted`). A successful address
round may leave a blacklisted address (`IPRounds.DoneIsCleanIff`), a floating IP
may cost a machine (`FloatingIPs.BestIffNoneShort`), and a stopped row may take a
new machine (`CloudStops.QuietIffKindsApart`). `Trigger` may block forever in its
own first send (`WakeUps.ReturnsIffEmpty`). Load balancers are expanded one level
deep. A follower's table mirrors etcd only if neither held a connection twice
(`ConnectionPipeline.JoinConnections`).

## Model

| member | source | states |
|---|---|---|
| `Join.Join` | join/join.go:33-113 | the pairs are, in order, those of the reference matching of all non-negative pairs, and the leftovers are exactly the unmatched elements in their original order; so the score-0 shortcut, the skipped pairs and the early break change nothing |
| `Join.ScanRow` | join/join.go:53-73 | one row of pair generation keeps the generation invariant: zero-score pairs made so far are final, everything else compatible is recorded or blocked |
| `Join.Collect` | join/join.go:75-95 | the greedy pass over the stably sorted pairs, with its early exit, completes the generated pairs to a greedy matching |
| `Join.Leftover` | join/join.go:97-110 | the unpaired elements, in the original order |
| `Join.StableSortAscending` | join/join.go:75-78 | a stable sort by score of pairs generated in (left, right) order is a sort by (score, left, right) |
| `Matching.ReferenceIsGreedy` | join/join.go:28-32 | the sort-and-take specification yields a matching in which every left-out pair conflicts with an earlier chosen one |
| `Matching.GreedyUnique` | join/join.go:28-32 | there is only one such matching, so any algorithm with that property computes the specification |
| `Matching.NoBlockingPair` | join/join.go:28-32 | every compatible pair that is not chosen has an end matched at an equal or lower score |
| `Matching.HalfOptimal` | join/join.go:28-32 | no matching of compatible pairs is more than twice as large as the result |
| `HashJoin.HashJoin` | join/join.go:131-174 | matches the last left holder of each key with its first right holder; unmatched last holders and all other right elements are left over |
| `HashJoin.BuildTable` | join/join.go:146-152 | the table holds, for every left key, its last holder |
| `HashJoin.Probe` | join/join.go:154-166 | after probing, the matched pairs, unmatched rights and remaining keys are those of the specification |
| `HashJoin.Drain` | join/join.go:168-171 | the remaining table entries come out once each, in some order |
| `HashJoin.HashJoinIsJoin` | join/join.go:131-174 | with distinct left keys, pairs and leftovers equal, as multisets, those of `Join` with score 0 on equal keys and -1 otherwise |
| `HashJoin.RightsAccounted` | join/join.go:154-166 | with or without duplicate keys, the right elements of the pairs and the left-over right elements are together exactly the right input, as multisets |
| `HashJoin.LeftKeysAccounted` | join/join.go:149-171 | with or without duplicates, the left keys in pairs and leftovers are exactly the keys of the left input, each once |
| `Machines.MachineScore` | cloud/join.go:168-209 | not negative exactly if kinds match, disk sizes fit and roles do not contradict each other; 0 exactly if in addition a cloud ID is shared; otherwise between 7 and 10 |
| `Machines.MachineScoreIs` | cloud/join.go:187-208 | a possible pair without a shared cloud ID scores 7 with both a shared floating IP and known equal roles, 8 with the IP only, 9 with the roles only and 10 with neither |
| `Machines.JoinMakesPairing` | cloud/join.go:71-71 | joining two lists of machines of one region gives the reference pairing of the compatibility graph |
| `Machines.PairingIsMaximum` | cloud/join.go:168-209 | with agreeing disk sizes no compatible pairing is larger, if blueprint roles are known and no floating IP asked for is on a row of that kind without a role, or if the rows are a listing without roles |
| `Machines.PairingIsMaximumIff` | cloud/join.go:168-209 | with known blueprint roles, whatever the floating IPs, the pairing is largest if and only if there are no free blueprint machine, free row and pair made by a floating IP on a row without a role, all of one kind, with the row of the paired machine's role |
| `Machines.BootsAndStopsAreMinimal` | cloud/join.go:111-163 | with known roles and no such floating IP no other pairing boots or stops fewer machines |
| `FloatingIPs.BestIffNoneShort` | cloud/join.go:168-209 | with no floating IP twice on a side, the pairing is largest if and only if for no kind and two roles the counts of machines, rows and misplaced floating IPs say otherwise: some such IPs, with the rows of that role more than its machines, and more machines of the other role than rows left for them |
| `FloatingIPs.AnchoredIsPaired` | cloud/join.go:190-201 | a blueprint machine whose floating IP is on a row of its kind without a role always gets that row |
| `FloatingIPs.FloatingIPCanStrandMachines` | cloud/join.go:190-201 | a blueprint of a worker with a floating IP and a master, and a table of a machine with that IP and a worker, for which the pairing is not largest |
| `RoleMatching.MaximumIff` | cloud/join.go:182-207 | on a graph whose edges depend on kind and role, a maximal matching is maximum if and only if no free left, free right and pair with a right of open role could be exchanged for two pairs |
| `DesiredMachines.SelectDesired` | cloud/cloud.go:244-280 | exactly the wishes of this region with a readable role, in blueprint order, each with its own role, size, disk or the default of 32, keys and admin key, floating IP and nothing else |
| `DesiredMachines.DesiredFulfils` | cloud/cloud.go:244-280 | the same of the specification: an ascending list of wishes, exactly those that concern the region, each fulfilled field by field |
| `DesiredMachines.DesiredFrom` | cloud/cloud.go:244-280 | every desired machine is the translation of a wish for this region |
| `DesiredMachines.Translate` | cloud/cloud.go:258-275 | a row of the same place and kind, without a cloud ID and never without a disk size |
| `DesiredMachines.DesiredIn` | cloud/cloud.go:244-280 | every desired machine is in the region, whatever the blueprint |
| `DesiredMachines.DesiredIsWished` | cloud/cloud.go:244-280 | a blueprint that names every role meets the hypotheses of the exact maximality results |
| `DesiredMachines.DesiredIsUnanchored` | cloud/cloud.go:244-280 | a blueprint without floating IPs meets those on floating IPs, whatever the table |
| `CloudSync.View.InsertMachine` | db/machine.go:80-84 | adds a blank row under a fresh ID |
| `CloudSync.View.SelectMachines` | cloud/join.go:238-242 | exactly the rows of the region, each once, in some order |
| `CloudSync.View.Commit` | db/db.go:192-206 | the row is replaced and no other row changes |
| `CloudSync.View.Remove` | db/db.go:209-214 | the row is gone and no other row changes |
| `CloudSync.View.InsertMissing` | cloud/join.go:73-75 | each listed machine without a row gets a blank row under its own fresh ID |
| `CloudSync.View.RemoveAll` | cloud/join.go:77-79 | exactly the given rows are gone |
| `CloudSync.View.CommitAll` | cloud/join.go:81-92 | the given rows are written over the table in order |
| `CloudSync.View.SyncDBWithCloud` | cloud/join.go:68-93 | the table afterwards is the merge of the old table with the listing along the reference pairing; each row of the region has all nine fields that providers report from a listed machine, and its ID, status, keys, role and connection flag from the old row, or blank if it is new |
| `CloudSync.MergedRowsShow` | cloud/join.go:81-92 | the same of the merge, field by field, for every order of reading the table |
| `CloudSync.MergeSparesOthers` | cloud/join.go:68-93 | rows of other regions are untouched by a merge, and none appear |
| `CloudSync.MergedRows` | cloud/join.go:73-92 | the rows of the region after a merge are exactly one per listed machine |
| `CloudKeep.SyncOneToOne` | cloud/join.go:68-93 | after a merge the rows of the region correspond one to one to the listed machines, each with the provider, region, size, disk, preemptibility, cloud ID and the three addresses of its machine |
| `CloudKeep.SameCloudIDPaired` | cloud/join.go:184-185 | a row and a listed machine with the same cloud ID and shape are always paired with each other |
| `CloudKeep.ListedMachineKeepsRow` | cloud/join.go:81-92 | a machine still listed in unchanged shape keeps its row: ID, role, status, keys and connection flag as they were, and every reported field as listed now |
| `BlueprintSync.SyncDBWithBlueprint` | cloud/join.go:95-166 | table, boot requests, terminations and floating-IP updates are those of the reference pairing; field by field, paired rows are refreshed, unpaired ones stopping and otherwise as they were, each unpaired blueprint machine is requested as it is under a new ID and stored there without its role, and nothing else changes |
| `BlueprintSync.RefreshPairs` | cloud/join.go:113-139 | every paired row gets the blueprint's keys and its connection status; IPs move only for rows with a role |
| `BlueprintPlan.Refresh` | cloud/join.go:122-127 | the row has the blueprint's keys and a status decided by its public IP, connection flag and old status, and is otherwise as it was |
| `BlueprintPlan.BootRequest` | cloud/join.go:150-155 | the request is the blueprint's machine with its role, keys, shape and floating IP, booting under the given ID |
| `BlueprintPlan.BootRow` | cloud/join.go:157-162 | the stored row is the same without the role |
| `BlueprintPlan.PlanApplied` | cloud/join.go:113-163 | what applying the blueprint does to every row of the table and to nothing else, field by field |
| `BlueprintPlan.IPUpdatesExact` | cloud/join.go:129-138 | floating IPs are moved exactly for paired rows with a known role whose address differs from the blueprint's, and to the blueprint's |
| `BlueprintSync.BootMachine` | cloud/join.go:150-162 | one machine: requested with its role and all it asks for, stored without the role, both under a newly drawn ID that no row had |
| `BlueprintSync.BootMissing` | cloud/join.go:149-163 | every unpaired blueprint machine is requested under a fresh ID and stored as booting without a role |
| `BlueprintPlan.PlannedEnumerates` | cloud/join.go:113-163 | after the blueprint half, the region's rows are exactly the refreshed, stopped and booting ones |
| `CloudRounds.SecondMergePerfect` | cloud/join.go:68-93 | if the provider boots what it was asked to, the next merge pairs every listed machine with a row of the previous round |
| `CloudRounds.NextRoundIsQuiet` | cloud/join.go:68-166 | with known roles, one disk size and no floating IP asked for on a machine of open role: if boots and stops are carried out and no stopped row has the kind of a boot, the next round boots and stops nothing, whatever order tables are read in |
| `CloudStops.MeetingKindsAreNotQuiet` | cloud/join.go:68-166 | if a stopped row has the kind of a boot, some order of reading the table gives the new machine to it, and then the next round boots or stops a machine again |
| `CloudStops.QuietIffKindsApart` | cloud/join.go:68-166 | so the next round is quiet for every read order if and only if no stopped row has the kind of a boot |
| `CloudStops.StoppedRowCanReturn` | cloud/join.go:68-166 | one running worker and a blueprint of one master of the same kind: the next round need not be quiet |
| `CloudRuns.Round` | cloud/join.go:29-64 | the code's round: without listing, blueprint or the right namespace nothing changes; otherwise the merged rows mirror the listing, and boots, terminations, floating-IP updates, activity and the final table are those of the reference pairing of the blueprint's machines and the merged rows |
| `CloudRuns.NextRound` | cloud/join.go:29-64 | the code's round, run on the table that a round left whose boots and stops have been carried out and whose stopped rows have other kinds than its boots, returns no boots and no terminations |
| `Database.CommitRow` | db/db.go:192-206 | a commit leaves the row as given, and the alert flag is set exactly if it was or the rows changed |
| `Transactions.LockOrder` | db/db.go:154-164 | the tables of a transaction, repeated names once, in strictly ascending order |
| `Serializability.RunIsLocal` | db/db.go:70-78 | a body's results and effects on its tables depend on those tables only |
| `Serializability.RunIsConfined` | db/db.go:70-78 | a body changes no table outside its transaction |
| `Serializability.StepSimulates` | db/db.go:84-102 | every interleaved step is matched by a serial run that executes each transaction whole when its body ends |
| `Serializability.EveryScheduleIsSerial` | db/db.go:80-102 | every schedule of any transactions gives each ended transaction the result, and every unlocked table the contents, of running them one at a time in the order in which they ended, with the IDs they drew |
| `Histories.OneOperation` | db/db.go:179-214 | what each operation of a body does to the rows of its table, that it leaves other tables alone, and what the body learns: a selection gives the rows as they are, an insertion its new ID |
| `Histories.LastWriteWins` | db/db.go:84-102 | within a body a row is what the last operation on it left, or what it was; so a body reads its own writes |
| `Histories.LastWriteStays` | db/db.go:80-102 | in every reachable state of every schedule a row of an unlocked table is what the last operation on it left, transactions counting in the order in which they ended; an untouched row is as it was |
| `Histories.WorkStep` | db/db.go:179-222 | a body panics exactly on a table outside its transaction or on committing a missing row; an insertion draws the next ID |
| `Serializability.InsertNeverOverwrites` | db/db.go:179-222 | in every reachable state an ID that is drawn but not yet stored is in no table, although the ID counter is outside the table locks |
| `Serializability.NeverDeadlocked` | db/db.go:151-172 | in every reachable state with an unfinished transaction some transaction can step, for any number of transactions and any table lists, with repetitions |
| `Triggers.LiveTable.Alert` | db/table.go:64-79 | drops exactly the stopped triggers and leaves every other one with a full channel |
| `Triggers.LiveTable.Commit` | db/db.go:192-206 | the table changes as the commit function says |
| `Triggers.LiveTable.Insert` | db/db.go:184-189 | the row is stored, every other row is as it was, and the table will alert |
| `Triggers.LiveTable.Remove` | db/db.go:209-214 | the row is gone, every other row is as it was, and the table will alert |
| `Triggers.LiveTable.Execute` | db/db.go:184-214 | an operation panics exactly on committing a missing row, otherwise has the effect that the transaction model gives it, and never changes rows without the flag being up |
| `Triggers.Transact` | db/db.go:84-102 | after a transaction every unstopped trigger of each table whose rows it changed has a token, and all flags are down |
| `Triggers.CollectAlerts` | db/db.go:90-96 | lists exactly the tables whose flag was set, and clears all flags |
| `Triggers.AlertAll` | db/db.go:98-100 | alerts each listed table once: exactly their unstopped triggers end up with tokens, beside those that had one |
| `Triggers.Finish` | db/db.go:90-101 | clears all flags and notifies exactly the unstopped triggers of the tables whose flag was set |
| `WakeUps.EffectFlags` | db/db.go:184-214 | no operation changes rows without raising the flag, and none lowers it |
| `WakeUps.OperateChangesRows` | db/db.go:179-214 | an operation changes the rows of its table as it should, and counts as a change exactly if they differ |
| `WakeUps.TokenHasCause` | db/db.go:108-150 | an empty channel fills exactly by the first send, a tick or an alert of an unstopped trigger, and a full one empties exactly by being received from |
| `WakeUps.AlertsVisitFlagged` | db/db.go:90-100 | the alerts of a transaction visit exactly the triggers of its flagged tables, whose flags it takes down |
| `WakeUps.StoppedIsDropped` | db/table.go:64-72 | an alert visits each trigger once and drops it exactly if it is stopped |
| `WakeUps.StepCovers` | db/table.go:64-79 | every step keeps each live trigger covered: up to date, about to be woken, or owed a token by whoever holds the table |
| `WakeUps.NoLostWakeUp` | db/table.go:64-79 | in every reachable state with the table unlocked, a returned and unstopped trigger whose consumer has not read the latest change has a token waiting or a consumer that took one and has yet to read |
| `WakeUps.ReturnsIffEmpty` | db/db.go:108-121 | a registered trigger can still be returned by some run if and only if its channel is empty |
| `WakeUps.OneChangeBlocksTheSend` | db/db.go:117-117 | from every state with a registered, not yet returned and unstopped trigger, an unlocked table that it watches and an idle goroutine, one transaction on that table makes the send block for good |
| `WakeUpProgress.TransactionCanBegin` | db/db.go:84-86 | an idle goroutine can begin a transaction on any unlocked tables |
| `WakeUpProgress.BodyMayOperate` | db/db.go:179-214 | a body may operate on exactly its own tables, and commit exactly rows that are there |
| `WakeUpProgress.TransactionCanEnd` | db/db.go:89-102 | in every reachable state a body that is done can end its transaction: alerts never block, and all locks are given back |
| `WakeUpProgress.TriggerCanBeCreated` | db/db.go:108-121 | a new trigger can be registered on all its tables and handed out with its first token |
| `WakeUpProgress.TicksAndStops` | db/db.go:126-148 | a trigger that was returned may tick, also while it is being stopped, and may be stopped once |
| `WakeUpProgress.ConsumerCatchesUp` | db/table.go:64-79 | a consumer with a token can take it, read all it watches in one transaction and wait again, up to date |
| `TTLStore.Store.Create` | minion/etcd/etcd_mock.go:75-90 | takes the key if and only if no unexpired entry has it, and changes nothing else that is visible |
| `TTLStore.Store.Refresh` | minion/etcd/etcd_mock.go:192-210 | renews the key if and only if it is unexpired and has the given value |
| `TTLStore.Store.Expire` | minion/etcd/etcd_mock.go:229-235 | removes exactly the expired entries |
| `TTLStore.Store.AdvanceTime` | minion/etcd/etcd_mock.go:237-239 | what stays visible is what is unexpired at the new time |
| `TTLStore.CreatedLasts` | minion/etcd/etcd_mock.go:75-90 | a created key can be read for exactly its time to live, for ever if that is not positive; a taken key and other keys are not affected |
| `TTLStore.RefreshedLasts` | minion/etcd/etcd_mock.go:192-210 | a refresh by the holder gives another time to live, by anybody else changes nothing |
| `Election.DeliverKeepsLease` | minion/etcd/etcd.go:137-159 | no request, however late, takes or shortens a lease that has not run out |
| `Election.StepKeepsInvariant` | minion/etcd/elector.go:51-122 | every step keeps each leader's lease long enough for the worst case until its next commit |
| `Election.AtMostOneLeaderEver` | minion/etcd/elector.go:51-122 | in every run with lost and late requests, crashes and restarts, at most one minion leads at any instant, and the leader holds the key |
| `Election.SafeIffInSlack` | minion/etcd/elector.go:13-102 | with two or more masters every run is safe if and only if three times the local delay is at most the 5 seconds that TTL, tick and two timeouts leave |
| `Election.RoundWinsIffCanHave` | minion/etcd/elector.go:79-107 | an answered round makes a minion leader exactly if it can have the key, a leader by refreshing its own, others by creating a free one; the key is then its own for 30 seconds, and otherwise the store is as it was; a refused leader sleeps |
| `Election.LeaderRenews` | minion/etcd/elector.go:79-87 | from every reachable state within the slack a waiting leader's round is possible, keeps it leader and renews its key for 30 seconds |
| `Election.AnsweredLeaderStays` | minion/etcd/elector.go:79-87 | in every run within the slack, whenever the store answers a leader, the leader stays, with a lease that covers its next round |
| `Election.RoundWithoutAnswer` | minion/etcd/elector.go:91-98 | a round without an answer ends the leadership, lets the minion sleep for 30 seconds and leaves the store alone |
| `Election.LateRequestCounts` | minion/etcd/etcd.go:137-159 | a request given up on can still be applied, and take the key |
| `Election.ComesAndGoes` | minion/etcd/elector.go:51-98 | a minion starts and restarts without leading, may crash at any time, and campaigns again after its sleep |
| `Election.FlagChangesAtCommit` | minion/etcd/elector.go:104-122 | the leader flag changes only when a round is committed, at a start or at a crash |
| `Addresses.IntersectsIffShared` | minion/network/ip.go:142-144 | two prefix subnets pass the test if and only if some address is in both |
| `Addresses.ProbesCover` | minion/network/ip.go:189-192 | every address of a prefix subnet is probed at some offset within the subnet, from any start |
| `IPAllocation.Probe` | minion/network/ip.go:189-203 | the probing loop ends, and returns a free candidate or has found every candidate up to the last host taken |
| `IPAllocation.Search` | minion/network/ip.go:185-204 | a free address of the subnet is found if and only if there is one, and a free address that is drawn is the one returned |
| `IPAllocation.Reserved.AllocateIP` | minion/network/ip.go:185-204 | for a contiguous non-zero mask and any random start: returns a subnet address that was not reserved and reserves only it; fails, changing nothing, if and only if every subnet address is reserved |
| `Blacklist.FilterIsHarmless` | minion/network/ip.go:133-139 | dropping subnets that miss the Kelda subnet changes nothing for addresses in it |
| `Blacklist.MakeSubnetBlacklist` | minion/network/ip.go:116-140 | fails exactly if some worker subnet does not parse; otherwise yields the worker subnets that intersect the Kelda subnet |
| `Blacklist.CollectSubnets` | minion/network/ip.go:117-126 | exactly the subnets that some worker routes |
| `Blacklist.FilterSubnets` | minion/network/ip.go:128-139 | in any order: fails exactly if one does not parse, otherwise keeps exactly those that intersect the Kelda subnet |
| `Blacklist.IPBlacklisted` | minion/network/ip.go:146-153 | true exactly if some listed subnet contains the address |
| `IPUpdate.MakeIPContext` | minion/network/ip.go:50-88 | reserves the special addresses and those of rows that keep theirs, and lists every other row once |
| `IPUpdate.Classify` | minion/network/ip.go:62-85 | one table: addresses that are kept are reserved, every other row is listed once |
| `IPUpdate.AllocateIPs` | minion/network/ip.go:155-183 | gives fresh distinct subnet addresses to the listed rows in order, stopping early only when the subnet is exhausted |
| `IPUpdate.Pass` | minion/network/ip.go:98-109 | containers first, load balancers only after success: together one pass over all rows in need |
| `IPUpdate.PassKeepsSettled` | minion/network/ip.go:98-109 | a pass, successful or not, never changes a row with an allowed address |
| `IPUpdate.PassKeepsDistinct` | minion/network/ip.go:98-109 | a pass, successful or not, keeps allowed addresses pairwise distinct |
| `IPUpdate.PassSucceeds` | minion/network/ip.go:105-108 | after a successful pass every row has an address and no two share one |
| `IPUpdate.PassFails` | minion/network/ip.go:203-203 | after an exhausted pass every subnet address is special or held by a row |
| `IPUpdate.UpdateIPsOnce` | minion/network/ip.go:90-111 | over up to three passes: allowed addresses are kept and stay distinct, changed rows get addresses of 10.0.0.0/8 other than 10.0.0.0, 10.0.0.1 and 10.0.0.2, success means all addresses assigned and distinct, failure means a bad subnet or an exhausted pool; the round is one of the chains of passes below |
| `IPRounds.OutcomeIffPool` | minion/network/ip.go:90-111 | a round succeeds if and only if, at its start, there are as many unreserved subnet addresses as rows in need, whichever are drawn |
| `IPRounds.DoneIsCleanIff` | minion/network/ip.go:96-110 | success always means that no row is left with a blacklisted address if and only if no row was in need, or the pool was too small, or every blacklisted subnet address is special |
| `IPRounds.BarredMayStay` | minion/network/ip.go:96-110 | otherwise any other blacklisted address may be drawn in all three passes and be assigned at success |
| `IPRounds.BlacklistedAddressCanStay` | minion/network/ip.go:90-111 | one container, and a worker that routes 10.0.0.0/8: a round that succeeds and leaves a blacklisted address |
| `Names.UniqueNameGenerator.GetName` | js/bindings/bindings.js:51-58 | ends, and returns a name nobody has: the prefix itself exactly if it is free, else the prefix with the next number exactly if that is free, else a longer name that starts so |
| `Names.UniqueNameGenerator.GetNames` | js/bindings/bindings.js:32-59 | over any sequence of calls no name is returned twice |
| `Connections.EngineOneEach` | minion/engine.go:204-220 | whatever the table held, and whatever order it is read in, one row remains for each wanted connection |
| `Connections.EngineIdle` | minion/engine.go:204-220 | a table that holds each wanted connection once is not written |
| `Connections.Node.SelectConnections` | db/connection.go:28-37 | every row once, in some order |
| `Connections.Node.RemoveAll` | minion/engine.go:207-209 | exactly the given rows are gone |
| `Connections.Node.InsertAll` | minion/engine.go:211-220 | each connection is stored under its own newly drawn ID |
| `Connections.FollowerOneEach` | minion/etcd/connection.go:53-74 | without duplicates on either side, the follower's table ends up with each listed connection once |
| `Connections.FollowerDouble` | minion/etcd/connection.go:60-73 | with a duplicate on either side it does not |
| `ConnectionPipeline.Expand` | minion/engine.go:168-192 | exactly the blueprint's connections and, for each that names a load balancer, one with its sources and ports to the hostnames of the last load balancer of that name |
| `ConnectionPipeline.IndexLoadBalancers` | minion/engine.go:176-179 | the table has exactly the names of the load balancers, each with the hostnames of the last one of that name |
| `ConnectionPipeline.ByNameIsLast` | minion/engine.go:176-179 | what the table gives for a name is what the last load balancer with that name has |
| `ConnectionPipeline.ImpliedBy` | minion/engine.go:182-191 | exactly the connections with the same sources and ports to the hostnames of the load balancers that a connection names |
| `ConnectionPipeline.UpdateConnections` | minion/engine.go:168-221 | afterwards the table holds each of these connections once and nothing else; surviving rows are unchanged; a table that was right is not written |
| `ConnectionPipeline.LoadBalancerImpliesBackends` | minion/engine.go:171-192 | for each blueprint connection to a load balancer the table has one to its backends from the same hostnames on the same ports |
| `ConnectionOrder.CompareSlices` | util/str/str.go:36-52 | the loop computes the comparison by length, then by first difference |
| `ConnectionOrder.SliceCmpIs` | util/str/str.go:36-52 | a slice is smaller exactly if it is shorter, or as long and smaller at the first difference |
| `ConnectionOrder.RowLessIs` | db/connection.go:63-80 | rows are ordered by sources, destinations, upper port, lower port and row ID |
| `ConnectionOrder.ConnOrder` | db/connection.go:63-80 | before row IDs are looked at, only equal connections compare equal, and the comparison is antisymmetric |
| `ConnectionOrder.ConnTransitive` | db/connection.go:63-80 | the comparison is transitive |
| `ConnectionOrder.SortedAscending` | minion/etcd/util.go:10-12 | sorting rows with distinct connections gives a strictly ascending list |
| `ConnectionOrder.AscendingUnique` | minion/etcd/util.go:10-17 | a set of connections has only one ascending list, so the text written does not depend on IDs or map order |
| `ConnectionPipeline.SortIsCanonical` | minion/etcd/util.go:10-17 | what the leader writes is the ascending list of its table's connections |
| `ConnectionPipeline.WriteEtcdSlice` | minion/etcd/util.go:10-17 | on success the store holds the sorted list, and it is written only if it differed |
| `ConnectionPipeline.JoinConnections` | minion/etcd/connection.go:53-74 | the follower's table holds each listed connection once if and only if neither it nor the list held one twice; a table in step is not written |
| `ConnectionPipeline.RunConnectionOnce` | minion/etcd/connection.go:27-51 | a failed read changes nothing, the leader publishes and leaves its table alone, a follower copies and leaves the store alone |
| `ConnectionPipeline.Round` | minion/etcd/connection.go:27-74 | one leader pass and one follower pass make the follower's set the leader's, duplicate-free; once in step, a round writes nothing |
| `AddressText.ConcatInjective` | minion/network/acl.go:265-267 | a list of 10.0.0.0/8 addresses can be read back from its separator-free concatenation |
| `AddressText.DecimalReads` | minion/network/acl.go:265-267 | numbers are written in decimal digits that stand for them, without leading zeros |
| `AddressSets.LeIs` | minion/network/acl.go:265-265 | members are sorted as text: by the first difference, a beginning first |
| `AddressSets.NamesIdentifyMembers` | minion/network/acl.go:260-273 | two member lists get the same address-set name if and only if they are equal as multisets |
| `ACL.ResolveEnd` | minion/network/acl.go:50-56 | exactly the addresses of the known, non-public hostnames |
| `ACL.Unique` | minion/network/acl.go:275-285 | the same strings, each once |
| `ACL.FilterOut` | util/str/str.go:9-17 | exactly the strings other than the given one |
| `ACL.ResolveHostnames` | minion/network/acl.go:81-92 | exactly the addresses of the hostnames that have one |
| `ACL.EndpointName` | minion/network/acl.go:260-273 | the endpoint stands for exactly the members, and no earlier endpoint changes its meaning |
| `ACL.FileSet` | minion/network/acl.go:265-272 | the members are found under their name, whether it was new or already filed |
| `ACL.ResolveConnections` | minion/network/acl.go:40-79 | for every packet, some resolved connection fits if and only if some connection permits it |
| `ACL.ExpectedACLs` | minion/network/acl.go:156-193 | exactly the drop rules and, for every connection, its port rules and ICMP rules, in both directions |
| `ACL.RulesDecide` | minion/network/acl.go:156-240 | packets, ICMP included, pass exactly if a resolved connection fits and are dropped exactly if none does, however rules of equal priority are ordered |
| `ACL.RulesEnforcePolicy` | minion/network/acl.go:149-240 | a TCP or UDP packet is accepted if and only if some connection allows it forwards or as a response, an ICMP packet if and only if some connection leads from its source to its destination |
| `ACL.CompileACLs` | minion/network/acl.go:32-38 | the compiled rules and address sets accept exactly the packets that the connections permit under the hostname map |
| `ACL.TableMeansBlueprint` | minion/engine.go:168-221 | the table permits a packet if and only if some blueprint connection permits it, directly or on its own ports through the containers behind a load balancer that it names |
| `ACL.RulesMeanBlueprint` | minion/network/acl.go:149-240 | the compiled rules let a packet through if and only if the blueprint allows it so |
| `FlowTables.ContainerFlows` | minion/network/openflow/openflow.go:229-272 | exactly the flows specified for a container and its public ports |
| `FlowTables.PortFlows` | minion/network/openflow/openflow.go:245-269 | exactly the four flows of each public port, in some order |
| `FlowTables.AllContainerFlows` | minion/network/openflow/openflow.go:221-227 | exactly the flows of all containers |
| `FlowTables.AllFlows` | minion/network/openflow/openflow.go:274-284 | exactly the static flows, every container's flows and the broadcast flow |
| `FlowMeaning.Runs2` | minion/network/openflow/openflow.go:80-110 | what the switch does in table 2 is what the pseudocode says |
| `FlowMeaning.Runs3` | minion/network/openflow/openflow.go:113-139 | what the switch does in table 3 is what the pseudocode says |
| `FlowMeaning.Runs1` | minion/network/openflow/openflow.go:64-78 | what the switch does in table 1 is what the pseudocode says |
| `FlowMeaning.Runs0` | minion/network/openflow/openflow.go:46-62 | what the switch does from table 0 on is what the pseudocode says |
| `FlowMeaning.FlowsMeanPseudocode` | minion/network/openflow/openflow.go:13-141 | for distinct IPs and ports the switch outputs every packet exactly as the pseudocode says, however it chooses among flows of equal priority |
| `FlowMeaning.VethLeavesByItsOwnPorts` | minion/network/openflow/openflow.go:229-236 | a packet from a container leaves only on LOCAL or on the container's own patch port, and only under its own hardware address |
| `FlowMeaning.ReachesLocalIff` | minion/network/openflow/openflow.go:164-272 | a unicast TCP or UDP packet not for the gateway's IP reaches LOCAL if and only if it is sent to the gateway's hardware address under the container's own addresses and a public port allows it |
| `PublicPorts.CollectPorts` | minion/network/openflow/run.go:40-69 | a port is collected for a hostname exactly if a single-port connection opens it to or from the public internet |
| `PublicPorts.AddPair` | minion/network/openflow/run.go:46-66 | one source and destination: a port is added exactly for a single-port connection with a public end |
| `PublicPorts.AddSource` | minion/network/openflow/run.go:45-67 | one source against all destinations of a connection |
| `PublicPorts.AddConnection` | minion/network/openflow/run.go:44-68 | all sources against all destinations of a connection |
| `PublicPorts.OpenflowContainers` | minion/network/openflow/run.go:71-96 | each container gets exactly the ports its hostname is given |
| `PublicPorts.ResolveContainers` | minion/network/openflow/openflow.go:286-302 | exactly the containers both of whose interfaces exist, with their port numbers |
| `PublicPorts.SelectLocal` | minion/network/openflow/run.go:25-31 | exactly the containers placed on this machine that have an address, each once |
| `PublicPorts.UpdateOpenflow` | minion/network/openflow/run.go:21-38 | the flows of exactly the containers of this machine that have an address and whose interfaces exist, each on its own switch ports with the public ports of its hostname |
| `PublicPorts.PublicTrafficIff` | minion/network/openflow/run.go:40-96 | under the installed flows a container's TCP or UDP reaches LOCAL if and only if a single-port public connection of its hostname allows it, forwards or in reply |

## Left out

- Cloud provider clients, gRPC, TLS, SSH, Docker, OVSDB and netlink calls: foreign input and output without a property of their own.
- `syncAddressSets` and the creation and deletion half of `syncACLs`: the same keyed join as modelled, between expected and listed rows; failures of the OVSDB client are not modelled.
- `watchLeader` and the `LeaderIP` field: they do not influence who leads.
- Cloud ACLs and the polling hint: they change no machine row.
- Replies to ICMP: `allow-related` leaves them to connection tracking in OVN, which is outside the code shown.
- `minion/network/nat.go`, placement and load-balancer tables of the engine, hostname synchronisation: they would only add easier members.
- `Election.AtMostOneLeaderEver`: assumes that a master's role and IP do not change, because the early returns of the campaign loop leave the flag as it is.
- `IPAllocation.Reserved.AllocateIP`: a zero mask is excluded; with it and all addresses taken the source's loop would not end.
- `WakeUps.NoLostWakeUp`: speaks of triggers already returned, because `Trigger` may never return.
- IPv6 host subnets, malformed address strings and the string formats of keys, flows and rules: rules are structured data and keys are tuples.
- The directory tree of the etcd mock: paths are flat keys.
