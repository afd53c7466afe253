# Verification of the fabric service layer

A Dafny model of the part of this repository that decides state and arithmetic: the
generators that turn service requests into shared infrastructure objects, the checks
that gate a proposed change, and the life cycle of a CloudVision workspace. Infrahub,
CloudVision, the network and the clock are not modelled as such; what they answer, and
where they fail, are parameters, and the theorems quantify over all of them.

Verify everything with `dafny verify dfyconfig.toml`.

## The modules

* **Prefixes**, **FabricPool**, **Carve**, **CarveExact**, **PoolRoles** are the address arithmetic: aligned
  CIDR blocks (section 3.1 of RFC 4632), first fit over supernets, and the carve of the
  fabric's loopback, VTEP, point-to-point and DCI blocks. On one empty supernet the carve
  is exact: it fails only when no disjoint aligned placement exists. On any other space it is
  exact for blocks of one size, and for two sizes its failures are characterised.
* **SourcePolicy**, **PrefixLists**, **GrantFirewall**, **GrantWithdrawal**, **GrantNames**,
  **PolicyOrder** are the
  access grants. Many grants write to one application's permitted sources, one switch's
  prefix lists and one firewall's objects, with no reference count; the theorems say that
  grants can be added, narrowed and revoked in any order without disturbing hand-written
  data or each other, and exactly when they cannot.
* **DnsRecords** is the race of record generators for one name as a state machine, with
  lookup, create-or-merge, snapshot and each delete as a step of its own; **DnsPinned** is
  when an application that pins its address can lose its name; **DnsAddresses**
  is one run as a sequential program, and **DnsOneRun** proves that a run of the protocol
  alone does the same; **DnsZone** is the label, the address of a name and
  the zone check (labels per section 2.3.1 of RFC 1035 as relaxed by section 2.1 of
  RFC 1123).
* **FabricApp** is one run of the application generator, which may raise at any remote
  operation and crash between any two writes; **AppOutcome** says what a whole run comes to in
  the application's own fields, **AppLifecycle** what such a run can do wherever it stops, and
  what running again and again comes to; **AppHistory** is what holds over every history of
  runs of many applications and edits by hand: blocks, the pool, the pin.
* **AllocationCheck**, **WanIsolation** are the merge gates, with what an empty findings
  list means for switches, addresses and chains of circuits.
* **SharedAsn** is the shared autonomous system number with its roll-back, and
  **WorkspaceSubmission** the submission of a workspace under retries.
* **Sorting**, **SortKeys** and **Options** are shared helpers.

Objects that the source updates in place are classes, and each of their methods is proved
equal to a function of the old state; the theorems are about those functions and about
sequences of their steps.

## Assumptions about the platform

* Allocation from a pool is keyed on the identifier given: asked again, the pool answers the
  prefix it reserved before, until that prefix is deleted. A new answer did not exist before.
* A generator's tracking group prunes only at the end of a run that succeeded and wrote
  something, and only what earlier runs of the same generator had put in the group.
* Creating a DNS node at an address where one appeared since the run looked may merge onto
  that one, as `generators/generate_dns_record.py:30-38` expects, or make a second one; saving a
  found node that was deleted since creates it anew. The protocol has all these steps.
  `DnsPinned.RaceLoses` rests on a second node at one address;
  `DnsPinned.MergingKeepsTheName` is what holds when the save always merges.
* Saving and deleting one node is atomic. A run of the grant and application generators is
  not interleaved with another run on the same application, except where a run is cut off;
  the DNS protocol is interleaved step by step.
* Deleting an ASN takes it off every device that holds it.
* A CloudVision response that is not a failure means that the workspace is submitted.
* The mark `vip_block_managed` is never set by hand; `vip_block` may be, to any prefix there is.
* Ids of nodes are not used twice.

## Where the code falls short of what it promises

* The label pattern ends in `$`, which lets one trailing newline through
  (`DnsZone.PatternIsHostLabel`).
* Withdrawal deletes services by the prefix `svc-<grant>-tcp-`. A grant named with `-tcp`
  behind another's name is caught by it as well (`GrantNames.ServicePrefixReaches`).
* A run cut off before it succeeds leaves objects outside the tracking group, and later
  successful runs do not prune them (`GrantFirewall.CutOffRunLeaksAService`); one that fails
  after the link keeps what it no longer wants until a later run gets through
  (`GrantFirewall.LateFailureLeavesAService`); cut off between
  saving its rule and linking it, the later withdrawal leaves the rule dangling
  (`GrantFirewall.UnlinkedRuleDangles`).
* A run cut off between permitting a source and recording it leaves the source permitted for
  good, unless some grant had recorded it (`SourcePolicy.CutOffIsForGoodExactly`).
* A grant's record of its sources is never cleared, so a later run of a withdrawn grant takes
  off a prefix that a person declared since (`SourcePolicy.DeclaredIsTakenOff`, and exactly
  when in `SourcePolicy.NextStepTakesOffExactly`).
* A withdrawal cut off between its deletes and the advertisement leaves the grant advertised
  for good when it has no source to revoke (`GrantWithdrawal.CutOffLeavesASlot`, and exactly
  when in `GrantWithdrawal.CutOffLeavesSlotExactly`).
* With a pinned address, racing record runs can end with nobody holding the name, unless the
  name is at the address or nowhere before, or the address has only hand-made nodes
  (`DnsPinned.RaceLoses`, and exactly when in `DnsPinned.PinnedNameIsSafeExactly`).
* The mark is the only guard of a withdrawal: a hand-declared block that a person names on an
  application while it is marked is deleted with it (`AppHistory.RepointedBlockIsLost`, and
  exactly when in `AppHistory.HandLostExactly`), and a block that a person names on a second
  application can be deleted under it (`AppHistory.BlockNamedTwiceDangles`, and exactly when in
  `AppHistory.DanglesExactly`).
* An application whose block could be dereferenced but not deleted records its status only in
  the second run (`AppLifecycle.LateStatus`).
* A submission recorded by the already-submitted path can be overwritten in the same run by
  an operating-system or time-out error while commenting
  (`WorkspaceSubmission.RepairCanBeUndone`), and refusing a workspace that is not ready makes it
  ready (`WorkspaceSubmission.NotReadyIsSubmittedOnRetry`). A thread that the second lookup
  misses can be told the outcome twice (`WorkspaceSubmission.MissedThreadIsToldTwice`).
* A submission whose save fails after CloudVision accepted it is recorded by a retry, but never
  with its change control (`WorkspaceSubmission.SubmittedWithoutItsChange`, and exactly when in
  `WorkspaceSubmission.RecordedAtOnceOrNever`).
* The supernet carve is not complete for two sizes on fragmented space
  (`PoolRoles.CarveMissesFragmentedRoom`, and exactly when in
  `CarveExact.PlacementMissedExactly`).

## Model

| member | source | states |
|---|---|---|
| Prefixes.NestOrDisjoint | checks/fabric_pool_check.py:503-519 | aligned blocks of one family nest or are disjoint, which the child-by-child scan relies on |
| Prefixes.OverlapsIffShare | checks/allocation_consistency_check.py:118-124 | the two-ended overlap test holds exactly when the blocks share an address |
| Prefixes.SubnetIffSubset | checks/fabric_pool_check.py:164-191 | the subnet test holds exactly when every address of the one lies in the other |
| Prefixes.WithinIsSubnet | checks/wan_service_check.py:294-296 | comparing one end and the prefix lengths decides containment, because blocks are aligned |
| Prefixes.HalvesTo | checks/fabric_pool_check.py:503-519 | one bit more of length halves a block, down to one address at 32 bits of IPv4 and 128 of IPv6 |
| FabricPool.NextAvailablePrefix | checks/fabric_pool_check.py:503-519 | first fit is sound, complete and least: a block of the asked length in a supernet of its family that overlaps no used prefix, none only when every such block overlaps a used one, and the lowest in the first family that has one |
| FabricPool.FirstFitInFamily | checks/fabric_pool_check.py:510-518 | the same within one family, supernets in address order |
| FabricPool.FirstFreeChild | checks/fabric_pool_check.py:514-518 | the scan of one supernet returns its lowest free aligned child, or none when every child is taken |
| FabricPool.LeastOverall | checks/fabric_pool_check.py:510-518 | the first hit is least over all supernets even when they overlap, since an outer supernet sorts before what it contains |
| FabricPool.FirstFitUnique | checks/fabric_pool_check.py:503-519 | the result is determined by the supernets, the used prefixes and the length |
| FabricPool.FirstFitByAddress | checks/fabric_pool_check.py:503-519 | first fit over addresses: every address of the block is in one supernet and in no used prefix, and no such block of IPv4 before IPv6 and then of a lower address exists |
| Carve.CarveLengths | checks/fabric_pool_check.py:424-437 | each block of the carve is the first fit beside the used prefixes and the blocks before it; the carve stops only where nothing fits |
| Carve.GreedyIsPlacement | checks/fabric_pool_check.py:424-437 | on any supernets and any used prefixes the carved blocks have the asked lengths and are pairwise disjoint, inside the supernets and clear of every used prefix |
| Carve.EndIsRoundedTotal | checks/fabric_pool_check.py:424-437 | carving smallest first wastes nothing but the rounding of its last step |
| Carve.EndFitsIffTotalFits | checks/fabric_pool_check.py:424-437 | the carve's end stays inside a supernet exactly when the plain sum of the block sizes does |
| Carve.PlacementFits | checks/fabric_pool_check.py:424-437 | any disjoint placement inside one supernet has total size at most the supernet's |
| Carve.CarveServesIffFits | checks/fabric_pool_check.py:424-437 | on one empty supernet the carve serves every length exactly when the sizes add up to no more than the supernet |
| Carve.CarveIsComplete | checks/fabric_pool_check.py:424-437 | smallest first on one empty supernet the carve serves every length exactly when some disjoint aligned placement exists at all |
| CarveExact.EqualCarveIsLowest | checks/fabric_pool_check.py:424-437 | on any supernets and beside any used prefixes blocks of one size go to the lowest free places, in order |
| CarveExact.EqualCarveServesExactly | checks/fabric_pool_check.py:424-437 | and all are served exactly when there are that many free places |
| CarveExact.EqualCarveIsComplete | checks/fabric_pool_check.py:424-437 | and exactly when some disjoint aligned placement exists, on fragmented space too |
| CarveExact.TwoSizesServedExactly | checks/fabric_pool_check.py:424-437 | blocks of two sizes are all served exactly when there are places for the first and the lowest of those leave enough for the second |
| CarveExact.PlacementMissedExactly | checks/fabric_pool_check.py:424-437 | when a placement exists the carve misses it exactly when the lowest places for the first size leave too few for the second |
| PoolRoles.ResolveResourceRole | checks/fabric_pool_check.py:106-121 | a pool resolves to a role exactly when its known resources agree on it and it is in scope; no known resource, and resources that disagree, are each their own error |
| PoolRoles.PrefixRolesAre | checks/fabric_pool_check.py:24-36 | which texts stand for which role |
| PoolRoles.ScopesAre | checks/fabric_pool_check.py:38-60 | which roles a fabric pool and a pod pool may have |
| PoolRoles.ValidateUniqueRoles | checks/fabric_pool_check.py:140-152 | passes exactly when the pools' roles are in scope and pairwise different |
| PoolRoles.ValidatePodPoolContainment | checks/fabric_pool_check.py:164-191 | passes exactly when, for each contained role, the fabric is unconstrained or every pod prefix is inside a fabric prefix |
| PoolRoles.ContainedAddresses | checks/fabric_pool_check.py:164-191 | then no address a pod can hand out lies outside the fabric's prefixes for the role |
| PoolRoles.ContainmentByAddress | checks/fabric_pool_check.py:164-191 | the check passes exactly when for loopbacks, VTEPs and point-to-point links the pod has no prefixes, or each lies, address by address, in one of the fabric's, or the fabric has none and leaves the role to its supernet |
| PoolRoles.ValidateSupernetCapacity | checks/fabric_pool_check.py:391-437 | reports the first missing role that does not fit beside the used prefixes and the roles before it, or nothing |
| PoolRoles.SupernetPoolIs | checks/fabric_pool_check.py:439-446 | the supernet is the first attached pool that resolved to the role, and there is none only when no pool did |
| PoolRoles.UsedPrefixesAre | checks/fabric_pool_check.py:412-423 | a prefix is spoken for exactly when it belongs to an attached pool none of whose resources is a supernet, or to a pool of an older relationship |
| PoolRoles.RolesInOrder | checks/fabric_pool_check.py:400-404 | the missing roles are carved in the order loopback, VTEP, point-to-point, DCI |
| PoolRoles.CleanCapacityOverPools | checks/fabric_pool_check.py:391-437 | a clean check means a block for every missing role inside the supernet that shares no address with another block or with any pool spoken for; where only loopbacks or only links are missing it is clean exactly then; a finding names a missing role |
| PoolRoles.CleanCapacityIsRoom | checks/fabric_pool_check.py:391-437 | a clean check means disjoint blocks for all missing roles exist, clear of every used prefix |
| PoolRoles.CapacityIsExact | checks/fabric_pool_check.py:391-437 | on any supernets and beside any used prefixes, for any missing roles: clean exactly when there are places for the missing loopback blocks and the lowest of those leave enough for the missing link blocks |
| PoolRoles.CapacityOfOneSizeIsExact | checks/fabric_pool_check.py:391-437 | when only loopback or only link blocks are missing, clean exactly when any disjoint placement exists |
| PoolRoles.CapacityIsExactWhenEmpty | checks/fabric_pool_check.py:62-73 | for any subset of the four roles on one empty supernet the check is clean exactly when some disjoint placement exists |
| PoolRoles.AllRolesNeedSlash22 | checks/fabric_pool_check.py:62-73 | with all four roles missing an empty IPv4 supernet passes exactly from /22 up |
| PoolRoles.CarveMissesFragmentedRoom | checks/fabric_pool_check.py:424-437 | smallest first is not complete on fragmented space: two supernets on which the carve stops although a placement exists |
| PrefixLists.AdvertisementEntry | generators/generate_app_access.py:237-257 | the in-place edit adds one sequence to the first list of that name, creating list or key, and fails exactly when the list cannot be sorted |
| PrefixLists.AdvertisementRemoved | generators/generate_app_access.py:260-283 | the scan with removal under it takes the sequence out of every list of that name, drops lists left empty, and the key with the last list |
| PrefixLists.RemovalUndoesExactly | generators/generate_app_access.py:237-283 | removing right after adding restores the hostvars if and only if they were undoable: sequence unused, list sorted, no empty list of that name, key absent or non-empty |
| PrefixLists.AddedMeaning | generators/generate_app_access.py:237-257 | on well-formed hostvars one lookup changes, every list stays sorted with unique sequences, every other key is untouched |
| PrefixLists.RemovedMeaning | generators/generate_app_access.py:260-283 | the same for removal |
| PrefixLists.AddedFailsExactly | generators/generate_app_access.py:237-257 | advertising raises exactly when the key holds something else, or an item of the first list of that name carries no sequence |
| PrefixLists.EditsLeaveOrder | generators/generate_app_access.py:237-283 | both edits touch no other key and leave every list ascending by sequence, none of them empty |
| PrefixLists.RemovedElsewhere | generators/generate_app_access.py:267-270 | where there are no prefix lists withdrawing changes nothing |
| PrefixLists.RunIsBaselinePlusLive | generators/generate_app_access.py:1223-1302 | over any sequence of advertise and withdraw steps each slot holds what its own last step asked and every other slot what the baseline held |
| PrefixLists.RunOrderIsIrrelevant | generators/generate_app_access.py:1223-1302 | two runs that last asked the same of every slot leave the same prefix lists, whatever their order |
| PrefixLists.Switch.Advertise | generators/generate_app_access.py:1223-1266 | one advertisement on the stored hostvars; a failure leaves the switch alone |
| PrefixLists.Switch.Withdraw | generators/generate_app_access.py:1268-1287 | one withdrawal on the stored hostvars; nothing is written when nothing changed |
| PrefixLists.Switch.WriteHostvars | generators/generate_app_access.py:1289-1302 | empty hostvars are stored as null and read back as empty |
| SourcePolicy.PrefixesOtherGrantsRecord | generators/generate_app_access.py:473-519 | the loop collects exactly what the other grants of the application record, of the live ones only when asked |
| SourcePolicy.Store.Permit | generators/generate_app_access.py:1093-1154 | the new store: a prefix is recorded when this run added it or another grant recorded it, and left unrecorded when a person declared it |
| SourcePolicy.Store.Revoke | generators/generate_app_access.py:1158-1190 | the new store and the count: what the grant recorded goes, except what a live grant records |
| SourcePolicy.PermitByField | generators/generate_app_access.py:1093-1154 | permitting in the fields: the source is added to the application, and recorded unless it was there and no other grant on the application records it |
| SourcePolicy.RevokeByField | generators/generate_app_access.py:1158-1190 | revoking in the fields: what the grant recorded goes unless another grant on the application that is not being withdrawn records it |
| SourcePolicy.RunStatus | generators/generate_app_access.py:830-857 | the status a run leaves: decommissioned once something was taken away, error when the request does not validate, else active |
| SourcePolicy.WaitsForItsRun | generators/generate_app_access.py:824-841 | a withdrawal waits from its request until the grant's next run |
| SourcePolicy.RunsKeepInvariant | generators/generate_app_access.py:1093-1190 | over every interleaving of runs, cut-off runs, withdrawal requests, new grants and late declarations all that is permitted was declared, left by a cut-off run, or is recorded by a grant that answers for it |
| SourcePolicy.AllowedIsHandPlusLive | generators/generate_app_access.py:1093-1190 | so with no withdrawal waiting the application permits exactly what people declared, what cut-off runs left and the live records; what was declared before the first grant is never recorded and never taken off; every live grant's source is permitted |
| SourcePolicy.CutOffKeepsInvariantExactly | generators/generate_app_access.py:1126-1154 | a run cut off between permitting and recording its source keeps the invariant if and only if the source was permitted before or is claimed |
| SourcePolicy.PermittedForGoodExactly | generators/generate_app_access.py:1093-1190 | a permitted prefix stays permitted in every future if and only if no grant on the application, live or withdrawn, records it |
| SourcePolicy.CutOffIsForGoodExactly | generators/generate_app_access.py:1126-1154 | so a cut-off run leaves its source permitted for good if and only if no grant on the application had recorded it |
| SourcePolicy.CutOffLeavesAStray | generators/generate_app_access.py:1126-1154 | the input: a new grant whose first run is cut off there leaves a source that is permitted and unrecorded |
| SourcePolicy.StraysAreCutOff | generators/generate_app_access.py:1126-1154 | only such runs leave strays, of a source that was neither permitted nor claimed |
| SourcePolicy.NextStepTakesOffExactly | generators/generate_app_access.py:1158-1190 | a permitted prefix can be taken off by the next step, also when a person declared it after the withdrawal, if and only if a withdrawn grant of the application records it and no live one does |
| SourcePolicy.DeclaredIsTakenOff | generators/generate_app_access.py:1158-1190 | the input: a grant is built for a source, withdrawn and run, a person declares that source, and one more run of the withdrawn grant takes it off |
| GrantNames.ServicePrefixReaches | generators/generate_app_access.py:1034-1061 | deletion by name prefix reaches another grant's services exactly when its name is this one's, or this one's with -tcp behind it, or continues that with a dash |
| GrantNames.NamesAre | generators/generate_app_access.py:1034-1037 | the generated names, written out |
| GrantNames.ServiceNameInjective | generators/generate_app_access.py:356-358 | different ports have different service names |
| GrantNames.NormalisePorts | generators/generate_app_access.py:522-569 | ascending, without duplicates, all of the named ports and no other; empty, non-numeric and out-of-range input are refused |
| GrantNames.BookIndex | generators/generate_app_access.py:368-379 | the first index at or above the grant's offset that is not taken, and never below the floor |
| GrantFirewall.IndexTcpServices | generators/generate_app_access.py:693-716 | every port some service answers on is indexed, with the last of the services that answer on it |
| GrantFirewall.Store.UpsertVipEntry | generators/generate_app_access.py:859-898 | cut off or not, it made the writes it got to: none for a foreign entry, else the grant's own |
| GrantFirewall.Store.UpsertServices | generators/generate_app_access.py:900-929 | the same for one own service per port that no foreign service answers on |
| GrantFirewall.Store.UpsertRule | generators/generate_app_access.py:931-987 | the same for the rule and its link |
| GrantFirewall.Store.RunBuild | generators/generate_app_access.py:843-857 | a whole build: it may fail after any number of firewall writes, or in the status, the source, the advertisement or the render request behind them, and prunes only when it got through all of that |
| GrantFirewall.OneServicePerPort | generators/generate_app_access.py:900-929 | the rule lists one service per port, in port order |
| GrantFirewall.WantedServicesAre | generators/generate_app_access.py:900-929 | a run writes one own service exactly for each port no foreign TCP service answers on |
| GrantFirewall.BuildKeepsInvariant | generators/generate_app_access.py:859-987 | wherever a build fails, before the link or after it, and when it prunes, the rule references only declared objects and no foreign object is written or deleted |
| GrantFirewall.FinishedBuild | generators/generate_app_access.py:859-987 | after a finished build the rule is the request's and the grant owns exactly the wanted objects beside earlier orphans |
| GrantFirewall.FinishedBuildIsExactly | generators/generate_app_access.py:286-310 | it owns exactly the wanted objects if and only if no failed run had left another behind |
| GrantFirewall.FinishedRuleByName | generators/generate_app_access.py:859-987 | the names written out: the rule points at an entry or a service found under another name, and else at the grant's own entry, of the kind the address has, and its own service of the port |
| GrantFirewall.FinishedObjectsByName | generators/generate_app_access.py:859-929 | the own entry wraps the address and the own services answer on their ports |
| GrantFirewall.FinishedGroupByName | generators/generate_app_access.py:859-929 | the group is exactly those own objects, and beside them exactly what the last finished run did not write is left |
| GrantFirewall.UnfinishedBuild | generators/generate_app_access.py:843-857 | a build that does not get through, wherever it fails, prunes nothing and adds at most what it was to want to the orphans |
| GrantFirewall.LateFailureKeepsAll | generators/generate_app_access.py:843-857 | one that fails after the link has its rule in place and keeps every object it owned, wanted or not |
| GrantFirewall.LateFailureLeavesAService | generators/generate_app_access.py:843-857 | the input: a narrowing run that fails while advertising leaves the dropped service declared behind the narrowed rule |
| GrantFirewall.RunsKeepInvariant | generators/generate_app_access.py:843-987 | over any sequence of builds with changing ports, each failing at any step of the run or at none, the rule stays closed, foreign objects stay as they were and only failed runs make orphans |
| GrantFirewall.FinishedRunsLeaveExactlyWanted | generators/generate_app_access.py:859-987 | through runs that all finished, the last leaves exactly the services for its current ports without a foreign one |
| GrantFirewall.CutOffRunLeaksAService | generators/generate_app_access.py:900-929 | one cut-off run is enough to leave a service that the next successful narrower run does not remove |
| GrantFirewall.Store.DeleteIfPresent | generators/generate_app_access.py:989-1011 | an absent object counts nothing, a present one goes |
| GrantFirewall.Store.Withdraw | generators/generate_app_access.py:1034-1061 | the withdrawal's deletes in order, rule first, and their count: the linked rule and every generated object there is |
| GrantFirewall.WithdrawStaysClosed | generators/generate_app_access.py:1034-1061 | cut off after any delete, the withdrawal of a linked grant leaves no rule pointing at something undeclared |
| GrantFirewall.WithdrawClosedExactly | generators/generate_app_access.py:1034-1061 | a finished withdrawal removes exactly the generated objects and is closed if and only if the rule was linked or pointed at none of them |
| GrantFirewall.UnlinkedRuleDangles | generators/generate_app_access.py:962-987 | a run cut off between saving its rule and linking it makes the next withdrawal leave a dangling rule |
| GrantFirewall.WithdrawSparesForeign | generators/generate_app_access.py:1034-1061 | foreign objects survive exactly when none carries a generated name, and another grant's rule stays closed exactly when it references none that goes |
| GrantFirewall.WithdrawnByName | generators/generate_app_access.py:1034-1061 | the names written out: a withdrawal takes a service exactly when its name begins svc-<grant>-tcp-, and an address entry exactly when it is called svc-<grant>-vip |
| GrantFirewall.OtherServicesSurvive | generators/generate_app_access.py:1058-1061 | another grant's service survives exactly when that grant's name is not this one's with -tcp behind it, and a service not called svc-... always |
| GrantWithdrawal.FinishedLeavesSlotExactly | generators/generate_app_access.py:1013-1091 | a withdrawal that gets through leaves the grant advertised if and only if it was and the run found nothing to take away |
| GrantWithdrawal.SourceClearsSlot | generators/generate_app_access.py:1056-1091 | with a source of its own to revoke a run that gets through clears the slot, whatever runs were cut off before |
| GrantWithdrawal.RunsLeaveSlotExactly | generators/generate_app_access.py:1013-1091 | over any number of withdrawals that get through, at least one, the grant stays advertised if and only if it was and the first found nothing to take away |
| GrantWithdrawal.NothingForGood | generators/generate_app_access.py:1034-1091 | a withdrawal that finds nothing leaves the site as it is, over any number of runs and whatever the order they read the objects in |
| GrantWithdrawal.CutOffLeavesSlotExactly | generators/generate_app_access.py:1034-1091 | after a run cut off anywhere and any number of runs that get through, at least one, the grant is still advertised if and only if there is no source to revoke and the first took all objects away without reaching the advertisement, or there were none |
| GrantWithdrawal.CutOffLeavesASlot | generators/generate_app_access.py:1034-1091 | the input: a grant with one object and no recorded source, cut off after the delete of that object, is advertised after any number of further runs |
| GrantWithdrawal.WithdrawalTakesAll | generators/generate_app_access.py:1013-1091 | a withdrawal that gets through leaves no linked rule, none of the generated objects, none of the sources only this grant records, and no slot unless it found nothing; every other object, source, application, grant and slot is as it was |
| GrantWithdrawal.FindsExactly | generators/generate_app_access.py:1034-1069 | a run finds something exactly when there is a linked rule, an object with a generated name, or a source that only this grant of the live ones records |
| GrantWithdrawal.WithdrawalByName | generators/generate_app_access.py:1013-1091 | with the names written out, of what was declared only the generated names go, and the grant ends decommissioned exactly when something was found or it was before |
| PolicyOrder.RenderSplits | transforms/junos_config.py:415-425 | rendering by index puts the whole hand-written policy before every generated rule |
| PolicyOrder.GrantsOnlyPermitFallThrough | generators/generate_app_access.py:107-122 | whatever permits are generated, a packet the baseline decides is decided the same way, and of the others exactly those some grant matches are permitted |
| PolicyOrder.BaselineDecides | transforms/junos_config.py:387-426 | the baseline decides a packet exactly when some hand-written rule of its zone pair matches it |
| PolicyOrder.GrantOrderIsIrrelevant | generators/generate_app_access.py:931-960 | the order of generated rules and collisions of their indexes change no verdict |
| PolicyOrder.MatchesMeans | transforms/junos_config.py:387-426 | a rule is about a packet when both zones, source, destination and an application agree |
| PolicyOrder.VerdictIsLeastIndex | transforms/junos_config.py:404-425 | a packet is decided by the matching rule with the least index, the first listed of those that share it |
| PolicyOrder.HandWrittenDecidesFirst | generators/generate_app_access.py:107-122 | a matching rule with an index below 100 decides before every generated permit |
| AllocationCheck.GroupByFabric | checks/allocation_consistency_check.py:228-238 | the grouping dictionary holds for each fabric exactly its VLANs, in order |
| AllocationCheck.CheckMembers | checks/allocation_consistency_check.py:239-263 | one finding for each pair on a fabric that shares an id on a tag, or a VNI, blaming the later |
| AllocationCheck.PairFindingsAre | checks/allocation_consistency_check.py:237-265 | the findings come in combination order, one for each pair that is a hit, and are exactly the findings of those pairs |
| AllocationCheck.CheckFabricVlanIds | checks/allocation_consistency_check.py:228-265 | the findings are exactly those of all fabrics, over the VLANs sorted by kind, name and id, and none means every fabric is clean |
| AllocationCheck.LaterVlanIsBlamed | checks/allocation_consistency_check.py:226-265 | of two clashing VLANs the one blamed never sorts first by kind, name and id, and all VLANs are judged |
| AllocationCheck.L2VlanIsJudged | checks/allocation_consistency_check.py:161-203 | every L2 VLAN of every tenant is judged in its own place, with its own id and tags, on its tenant's fabrics, and with its override for a VNI, else base and id added up when both are there, else none |
| AllocationCheck.SviIsJudged | checks/allocation_consistency_check.py:161-224 | every SVI is judged behind them, with base and fabrics of the last tenant that lists its VRF, and without such a tenant with neither VNI nor fabric |
| AllocationCheck.OnlyThoseAreJudged | checks/allocation_consistency_check.py:177-225 | nothing else is judged and nothing twice |
| AllocationCheck.VlanOrder | checks/allocation_consistency_check.py:225 | the order of blame is by kind, name and id |
| AllocationCheck.CleanOverVlans | checks/allocation_consistency_check.py:228-265 | the rule is clean exactly when, over the L2 VLANs and SVIs themselves, any two on one fabric share neither an id under a common tag nor a VNI |
| AllocationCheck.FindingNamesTheLater | checks/allocation_consistency_check.py:228-265 | a finding names one of two such VLANs on a fabric, and never the one that sorts first |
| AllocationCheck.CleanFabricIsUnique | checks/allocation_consistency_check.py:228-265 | clean exactly when on the fabric each tag carries each VLAN id at most once and each VNI appears at most once |
| AllocationCheck.LeastSegmentVrf | checks/allocation_consistency_check.py:333-387 | the first in order of the VRFs that segments give the prefix |
| AllocationCheck.ServedBy | checks/allocation_consistency_check.py:333-387 | exactly the VRFs with a gateway inside the network |
| AllocationCheck.ResolveVrf | checks/allocation_consistency_check.py:333-387 | a subnet's VRF: its segment's, else the prefix's own, else that of the gateways when they agree, else unknown |
| AllocationCheck.ResolvedVrfIs | checks/allocation_consistency_check.py:359-376 | said out: the least VRF of a segment that records the prefix, else its own, else that of the gateways inside it when they agree |
| AllocationCheck.TenantSubnets | checks/allocation_consistency_check.py:333-387 | one subnet for each tenant prefix that parses, with its VRF resolved, sorted by family, network and id |
| AllocationCheck.TenantPrefixesAre | checks/allocation_consistency_check.py:350-358 | a prefix is kept exactly when it parses and a segment records it, or it has a tenant role and is no resource of a pool |
| AllocationCheck.SegmentNamesAre | checks/allocation_consistency_check.py:342-349 | a subnet's names are those of the segments that record it |
| AllocationCheck.TwoSegmentNames | checks/allocation_consistency_check.py:395-407 | it has more than one exactly when two segments record it |
| AllocationCheck.SubnetOrder | checks/allocation_consistency_check.py:387 | the order of the subnets is by family, address, length and id |
| AllocationCheck.CheckSegmentSubnets | checks/allocation_consistency_check.py:390-430 | the findings are exactly the subnets with two segments and the later of each overlapping judged pair |
| AllocationCheck.CleanSubnetsByAddress | checks/allocation_consistency_check.py:390-430 | clean exactly when two subnets share an address only in different known VRFs, or when neither can be placed and neither is a segment's |
| AllocationCheck.CleanSubnetsSeparate | checks/allocation_consistency_check.py:390-430 | so in one VRF an address lies in at most one subnet, and an unresolved segment subnet shares no address with any other |
| AllocationCheck.CheckVipBlocks | checks/allocation_consistency_check.py:476-516 | the findings are exactly the blocks outside their cluster's pools and the later of each overlapping pair |
| AllocationCheck.CheckApplications | checks/allocation_consistency_check.py:448-516 | the same for the blocks sorted by application name and id |
| AllocationCheck.LaterVipIsBlamed | checks/allocation_consistency_check.py:473-516 | of two overlapping blocks the one blamed never sorts first, and all blocks are judged |
| AllocationCheck.VipOrder | checks/allocation_consistency_check.py:473 | the order of the blocks is by application name and id |
| AllocationCheck.DisjointByAddress | checks/allocation_consistency_check.py:496-499 | no two blocks overlap exactly when no address lies in two of them |
| AllocationCheck.CleanVipsByAddress | checks/allocation_consistency_check.py:476-516 | clean exactly when every block lies in a pool address by address and every address belongs to at most one application |
| DnsRecords.TendedStep | generators/generate_dns_record.py:144-192 | every step of every run keeps the protocol's invariant |
| DnsRecords.RunsAgree | generators/generate_dns_record.py:144-192 | over every interleaving, when all runs have ended every holder but the lowest is hand-made; without hand-made holders at most one node holds the name |
| DnsRecords.UnmarkedNeverDeleted | generators/generate_dns_record.py:144-208 | over every interleaving of any runs, pinned or not and at any addresses, a node that starts without the creation mark is neither deleted nor given the mark |
| DnsRecords.LowestHoldsStep | generators/generate_dns_record.py:144-192 | every step keeps the lowest node that ever held the name, when no run pins an address or all runs name one address and every holder is there |
| DnsRecords.LowestSurvives | generators/generate_dns_record.py:144-192 | in those two cases, at every moment of every interleaving the lowest node that ever held the name holds it |
| DnsRecords.AllRunsAgreeOnTheLowest | generators/generate_dns_record.py:144-192 | and without hand-made holders exactly that node holds it when all runs have ended |
| DnsOneRun.AloneIsSequential | generators/generate_dns_record.py:144-208 | from any state, a run of the protocol that starts, takes its steps alone and ends has done to the nodes what the sequential program of DnsAddresses does |
| DnsPinned.SafeIsNamed | generators/generate_dns_record.py:144-208 | runs at one address, pinned or not, cannot lose a name that is at the address or nowhere before the first, nor one whose address has only hand-made nodes |
| DnsPinned.RaceLoses | generators/generate_dns_record.py:160-208 | in every other case five runs can: an interleaving after which all have ended and no node holds the name |
| DnsPinned.PinnedNameIsSafeExactly | generators/generate_dns_record.py:144-208 | so a pinned name is safe over all interleavings if and only if one of those two conditions holds of the start state |
| DnsPinned.MergingKeepsTheName | generators/generate_dns_record.py:144-208 | where a create merges onto any node its address has, and the address has one at most, no name is lost from any start state: when all runs at the address have ended exactly one node holds it |
| DnsAddresses.Ipam.KeepOne | generators/generate_dns_record.py:173-192 | exactly the marked holders above the lowest go whose deletion is not refused |
| DnsAddresses.Ipam.Withdraw | generators/generate_dns_record.py:194-208 | every holder loses the name, by deletion or, when something still references it, by being renamed |
| DnsAddresses.Ipam.Ensure | generators/generate_dns_record.py:144-171 | the new address nodes of one run: kept, moved or created |
| DnsAddresses.WithdrawnNode | generators/generate_dns_record.py:194-208 | node by node: a holder is deleted exactly when it carries the mark and the deletion is not refused, and else only loses the name |
| DnsAddresses.ExtraNode | generators/generate_dns_record.py:173-192 | a duplicate is a marked holder above another holder |
| DnsAddresses.EnsuredNode | generators/generate_dns_record.py:144-171 | a name that is there is left alone unless it is pinned elsewhere; else one node at the address has it afterwards, an existing one or else a new, marked one, every other holder has lost it, and nothing else changed |
| DnsAddresses.RunLeavesOneHolder | generators/generate_dns_record.py:144-192 | after one run the name is held, every holder above the lowest is hand-made or could not be deleted, unrelated nodes are as they were and hand-made ones are still there |
| DnsAddresses.PinnedNameEndsAtAddress | generators/generate_dns_record.py:160-192 | a pinned name ends at its address if and only if no node held it there or such a node is hand-made, lowest or cannot be deleted |
| DnsAddresses.SecondRunChangesNothing | generators/generate_dns_record.py:144-192 | a second run changes nothing: always unpinned, and pinned when the first ended at the address |
| DnsZone.PatternIsHostLabel | generators/generate_dns_record.py:64 | the label pattern accepts exactly the host labels, and in addition each with one newline behind it |
| DnsZone.HostLabelMeans | generators/generate_dns_record.py:64 | a host label is 1 to 63 of a-z, 0-9 and the hyphen, which is neither first nor last |
| DnsZone.NameAddress | generators/generate_dns_record.py:71-89 | the pinned address if it lies in the block and is refused if it does not; without one the lowest address of the block |
| DnsZone.CollectFindings | checks/dns_zone_check.py:40-86 | the findings are exactly the resolvers when there are two or more, and the records of a zone outside their application's block |
| DnsZone.CheckRecord | checks/dns_zone_check.py:66-85 | one record is reported exactly when it reads as an application's name in some zone and lies outside its block |
| DnsZone.ZonesAre | checks/dns_zone_check.py:45-57 | the zones are those of the applications that have one |
| DnsZone.ResolversAre | checks/dns_zone_check.py:45 | the resolvers are the applications with a zone that is set and not empty |
| DnsZone.ResolversAreTwo | checks/dns_zone_check.py:46-55 | they are blamed exactly when there are two |
| DnsZone.RecordFitsMeans | checks/dns_zone_check.py:66-85 | a record is astray exactly when it is some label, a dot and the zone, and the last application so called that has a block does not have the address in it |
| DnsZone.SuffixSplits | checks/dns_zone_check.py:70-74 | taking the zone off a generated name gives back its label |
| DnsZone.CreatedNameFits | generators/generate_dns_record.py:76-126 | every name the generator creates, for an application that has one, passes the zone check, lies in its own block and splits back to its label; withdrawn, unexposed and blockless applications create none |
| DnsZone.GeneratedZoneIsClean | checks/dns_zone_check.py:40-86 | with one resolver a zone of generated records has no findings |
| DnsZone.NamesGetDistinctAddresses | generators/generate_dns_record.py:76-89 | behind a clean VIP-block check, names of different applications get different addresses |
| FabricApp.PoolIsUnique | generators/generate_fabric_app.py:105-138 | a pool is named exactly when one pool and no second draws from the cluster's supernets, and it is that one |
| FabricApp.Infrahub.SetStatus | generators/generate_fabric_app.py:378-397 | nothing is saved when the status is already recorded |
| FabricApp.Infrahub.PinDefinition | generators/generate_fabric_app.py:251-347 | the pin's writes, values before marker, cut off or raising anywhere |
| FabricApp.Infrahub.Withdraw | generators/generate_fabric_app.py:399-437 | reference and mark in one save first, then the delete; only a managed block |
| FabricApp.Infrahub.Allocate | generators/generate_fabric_app.py:349-376 | pool allocation, then block and mark in one save |
| FabricApp.Infrahub.Generate | generators/generate_fabric_app.py:196-249 | a whole run: exactly the writes it got to, and whether it finished, raised or crashed |
| AppLifecycle.RunEffect | generators/generate_fabric_app.py:349-437 | wherever a run stops: exactly what it has done to the prefixes, the pool's reservations and the application's block and mark |
| AppLifecycle.GoneExactly | generators/generate_fabric_app.py:399-437 | however a run ends, a prefix is gone exactly when it was the marked block of an application that should hold none and the run got as far as deleting it |
| AppHistory.PoolBlocksAreSafe | generators/generate_fabric_app.py:349-437 | after any history of crashing runs and edits, whatever people point applications at: blocks given by the pool exist, are not hand-declared and differ between applications; each orphan waits for one application, whose next successful allocation takes it back; none has two |
| AppHistory.HandLostExactly | generators/generate_fabric_app.py:399-437 | over any history a hand-declared prefix is lost if and only if some run withdraws a marked application whose block it is |
| AppHistory.RepointedExactly | generators/generate_fabric_app.py:416-437 | a marked application comes to hold a hand-declared block if and only if a person names one on it while the mark is set |
| AppHistory.HandIsSafe | generators/generate_fabric_app.py:399-437 | as long as nobody does, nothing declared is lost over any history |
| AppHistory.RepointedBlockIsLost | generators/generate_fabric_app.py:416-437 | the input: point any marked application at any hand-declared prefix, ask for its withdrawal, and an undisturbed run deletes the prefix |
| AppHistory.DanglesExactly | generators/generate_fabric_app.py:426-437 | a step leaves a reference to a deleted prefix if and only if it is a run that deletes a block which is also named on another application |
| AppHistory.BlockNamedTwiceDangles | generators/generate_fabric_app.py:399-437 | the input: from any state name the block of a marked application on another one, withdraw the first, and its run leaves the second with a reference to a deleted prefix |
| AppHistory.OwnedKeptExactly | generators/generate_fabric_app.py:349-437 | that marked applications hold the pool's reservation and all others hand-declared blocks survives a step if and only if it is no edit against it: every run, wherever it stops, keeps it |
| AppHistory.TidyHistoryIsSafe | generators/generate_fabric_app.py:349-437 | so after any history without such edits no application refers to a deleted prefix, hand-declared prefixes are still there, and no managed block is shared or hand-declared |
| AppLifecycle.FullRunResult | generators/generate_fabric_app.py:196-249 | the status, block and mark a whole run leaves, and that the pin raises again exactly when it raised |
| AppOutcome.PinRaisesExactly | generators/generate_fabric_app.py:251-347 | the pin raises exactly when there is neither entry nor chart, an unpinned entry cannot be fetched, its values cannot be attached, or a save that is needed fails; a withdrawn application is not pinned |
| AppOutcome.PinFills | generators/generate_fabric_app.py:251-327 | what the pin leaves: a blank namespace becomes the application's name, and an unpinned entry gives chart and values and fills only blanks |
| AppOutcome.RunOfRaisedPin | generators/generate_fabric_app.py:214-219 | after a pin that raised: status error, and block, mark and pool as they were |
| AppOutcome.RunOfExposed | generators/generate_fabric_app.py:235-249 | a live, exposed application keeps its block or gets the pool's answer, marked, for every choice of failing operations |
| AppOutcome.RunOfBlockless | generators/generate_fabric_app.py:221-233 | an unexposed application ends active and a withdrawn one decommissioned; both give back a managed block and keep any other, for every choice of failing operations |
| AppOutcome.UndisturbedRun | generators/generate_fabric_app.py:196-249 | with nothing failing: the final status and block, read off status, exposure, definition, chart, block and mark |
| AppLifecycle.SecondRunIsQuiet | generators/generate_fabric_app.py:378-397 | with everything else fixed the second run writes neither status nor block, if and only if the first did not clear a block, fail to delete it and leave its status unrecorded |
| AppLifecycle.LateStatus | generators/generate_fabric_app.py:214-226 | that case does occur: a decommissioning application whose block cannot be deleted records its status only in the second run |
| AppLifecycle.EventLoopEnds | generators/generate_fabric_app.py:378-397 | from the third run on every run is quiet, in every case from the second but that one: the status trigger cannot fire forever |
| AppLifecycle.WithdrawnStaysWithdrawn | generators/generate_fabric_app.py:196-249 | however a run ends, a withdrawn application is not live after it and no other application changed |
| AppLifecycle.PinIsTheCommitPoint | generators/generate_fabric_app.py:251-327 | wherever a run stops: marker set means chart and values are the entry's as read and only blanks were filled; not set means the chart is still the requested one |
| AppHistory.PinIsOneShot | generators/generate_fabric_app.py:251-347 | once set the marker stays set, and no later runs or catalogue edits change chart or values |
| WanIsolation.CheckCircuitMembership | checks/wan_service_check.py:120-148 | the findings are exactly the member circuits whose tenant is not their L3VPN's |
| WanIsolation.Shared | checks/wan_service_check.py:151-156 | the groups of two or more, each with all its services in order |
| WanIsolation.CheckExclusive | checks/wan_service_check.py:172-185 | one service is blamed for a peer exactly when another names it too |
| WanIsolation.CheckExclusiveVrfs | checks/wan_service_check.py:159-185 | exactly those findings for VRFs; none means no VRF carries two L3VPNs |
| WanIsolation.CheckExclusiveClouds | checks/wan_service_check.py:222-248 | the same for the VRFs and the zones of tenant clouds |
| WanIsolation.CheckCloudZoneMatchesVrf | checks/wan_service_check.py:188-219 | the findings are exactly the clouds whose zone governs another VRF |
| WanIsolation.CheckVpns | checks/wan_service_check.py:120-185 | rules 1 and 2 together are clean exactly when no circuit is misplaced and no VRF is shared |
| WanIsolation.CleanChainsStayInOneTenant | checks/wan_service_check.py:120-185 | no findings, and a tenant on every L3VPN and member circuit: circuits joined by a chain of any length over shared L3VPNs or VRFs belong to one tenant |
| WanIsolation.TenantlessVpnJoinsTenants | checks/wan_service_check.py:127-130 | that hypothesis is needed: rule 1 passes over an L3VPN without a tenant |
| WanIsolation.CleanZonesGovernOneCloud | checks/wan_service_check.py:188-248 | no findings from rules 3 and 4: the zone of one cloud governs no other cloud's VRF |
| SharedAsn.Infrahub.EnsureSharedDeviceAsn | generators/asn.py:34-91 | the new links and numbers of one run for every outcome of every link and of the clean-up |
| SharedAsn.AnchorMeaning | generators/asn.py:64-71 | the anchor is the first number held in the order of the devices |
| SharedAsn.SuccessSharesOne | generators/asn.py:49-91 | after success all devices hold one number, the anchor or else the single new one, and nothing else changed |
| SharedAsn.SecondRunChangesNothing | generators/asn.py:78-82 | a second run links nothing, whatever its links would have done |
| SharedAsn.FailureCanBeRetried | generators/asn.py:83-90 | after a failure at any link the anchor is the same when there was one; else clean-up takes everything back, or the new number is the next anchor unless no device got it |
| SharedAsn.AnchorIsForGood | generators/asn.py:49-91 | over any number of runs however they end, the first number held stays the anchor and no number is created |
| SharedAsn.LeaksOnlyWithoutCleanup | generators/asn.py:83-90 | a number is left without a device exactly when it was new, its first link was refused and its clean-up failed too |
| SharedAsn.LinksUpTo | generators/asn.py:76-82 | the links are made in the order of the devices up to the first that does not get through, and none after |
| SharedAsn.RaisedExactly | generators/asn.py:64-91 | a run raises exactly when nothing was held and the pool gave nothing, or some device without the number could not be linked |
| WorkspaceSubmission.Lifecycle.AddCommentOnce | checks/cv_workspace_lifecycle.py:282-284 | a text already among the comments looked up is not added again |
| WorkspaceSubmission.Lifecycle.AppendOutcomeComment | checks/cv_workspace_lifecycle.py:520-578 | find or create the thread, URL comment, second lookup, outcome comment, resolve; with a failure at any step, and with a second lookup that finds no thread and so compares with no comments |
| WorkspaceSubmission.Lifecycle.FailWorkspace | checks/cv_workspace_lifecycle.py:581-622 | records a failure with its reason and time and comments on it, never raising |
| WorkspaceSubmission.Lifecycle.AlreadyDone | checks/cv_workspace_lifecycle.py:766-806 | records the submission, passing over a failed save, and comments on it |
| WorkspaceSubmission.Lifecycle.SubmitWorkspace | checks/cv_workspace_lifecycle.py:625-763 | one run, with a failure of any kind at any remote step: status, URL, change control, times, error, requests and threads |
| WorkspaceSubmission.AppendKeepsTexts | checks/cv_workspace_lifecycle.py:520-578 | no outcome or URL text gets into a thread twice, except and exactly when the second lookup misses a thread that holds the outcome already |
| WorkspaceSubmission.ToldInOneThread | checks/cv_workspace_lifecycle.py:520-578 | with every step carried out an outcome is told in the thread of the recorded id, else the first with the label, else a new one: the URL first, neither text twice, the thread closed or opened as asked, the other threads untouched |
| WorkspaceSubmission.RunEnds | checks/cv_workspace_lifecycle.py:625-806 | how a run ends in every weather: what is a failure, what is passed over and what escapes |
| WorkspaceSubmission.FailedRunTells | checks/cv_workspace_lifecycle.py:581-622 | a failed run whose own saves and comments are carried out records the failure with the reason of its branch and the time, and leaves an open thread that tells it |
| WorkspaceSubmission.MissedThreadIsToldTwice | checks/cv_workspace_lifecycle.py:567-576 | the input: a recorded submission whose thread tells of it, run again with a second lookup that misses the thread |
| WorkspaceSubmission.RunKeepsTruth | checks/cv_workspace_lifecycle.py:625-806 | one run: recorded submitted means the remote is submitted and stays recorded, at most one request and none to a submitted workspace, and a report of submission is true |
| WorkspaceSubmission.RetriesKeepTruth | checks/cv_workspace_lifecycle.py:625-806 | the same over any sequence of submissions and retries; and no thread says a thing twice as long as no second lookup misses |
| WorkspaceSubmission.RunRecordsExactly | checks/cv_workspace_lifecycle.py:425-458 | a run writes the change control, its URL and the time down exactly when CloudVision answers it and its save goes through; no run changes a recorded URL |
| WorkspaceSubmission.RecordedAtOnceOrNever | checks/cv_workspace_lifecycle.py:671-748 | the run that brings the submission about records its change control or, over any number of retries, none does |
| WorkspaceSubmission.SubmittedWithoutItsChange | checks/cv_workspace_lifecycle.py:766-784 | the input: accepted, but the save fails; an undisturbed retry records the submission without its change control, for good |
| WorkspaceSubmission.RepairedExactly | checks/cv_workspace_lifecycle.py:671-706 | a record that misses a remote success is put right by the next run that reaches the remote, if and only if its save works and no later fault of that run reaches the handler that saves a failure |
| WorkspaceSubmission.RepairCanBeUndone | checks/cv_workspace_lifecycle.py:671-706 | a time-out while commenting makes the same run save a failure over the submission it just recorded |
| WorkspaceSubmission.CalmRunSettles | checks/cv_workspace_lifecycle.py:625-806 | from every ready or submitted state one undisturbed run records the submission, resolves the thread and sends a request exactly when the remote was not submitted |
| WorkspaceSubmission.NotReadyIsSubmittedOnRetry | checks/cv_workspace_lifecycle.py:649-657 | a workspace that is not ready is refused, but the refusal is saved as a ready status and a retry submits it |
| WorkspaceSubmission.MissingIdReplacesTheRecord | checks/cv_workspace_lifecycle.py:628-631 | without a workspace id even a recorded submission is replaced by a failure |
| SortKeys.KeyBeforeIsOrder | checks/allocation_consistency_check.py:387 | comparing keys component by component and texts character by character is an order one can sort by |
| SortKeys.BeforeMeans | checks/allocation_consistency_check.py:225 | one sequence is before another when, behind a common beginning, it ends or is lower |
| SortKeys.TextBefore | checks/allocation_consistency_check.py:225 | texts: the other's beginning, or the lower character where they first differ |
| Sorting.SortPermutes | transforms/junos_config.py:419-425 | sorting keeps every element as often as it was there |
| Sorting.SortSorted | transforms/junos_config.py:419-425 | sorting orders |
| Sorting.SortFixesSorted | generators/generate_app_access.py:237-257 | a list already in order is left as it is, equal keys included |

## Left out

- SourcePolicy.AllowedIsHandPlusLive: runs do not overlap, because the code reads its query once per run and does not promise the invariant under overlapping reads.
- SourcePolicy.Store.Revoke: does not model a save that fails between the application and the grant.
- PrefixLists.RunIsBaselinePlusLive: is about slots of list and sequence number; that two grants on one switch have different sequence numbers is a hypothesis, since the hash they come from is not modelled.
- PrefixLists.AdvertisementEntry: a list entry is a record of its name and items; other keys an entry may carry are not modelled.
- GrantFirewall.RunsKeepInvariant: is about one grant at a time with a fixed set of foreign objects; two grants that share a generated object are covered only by WithdrawSparesForeign.
- GrantFirewall.Store.RunBuild: does not model a prune that fails half-way.
- GrantWithdrawal.FinishedLeavesSlotExactly: the whole run is a function on values; the objects its parts update in place are the stores of GrantFirewall, SourcePolicy and PrefixLists.
- GrantNames.BookIndex: promises freshness and the floor only; the index moves between runs, because the taken indexes include the grant's own entry.
- PolicyOrder.GrantsOnlyPermitFallThrough: a rule lists its own source and destination prefixes and applications; address groups are not modelled.
- FabricPool.NextAvailablePrefix: supernets and used prefixes are parsed prefixes; text that does not parse is not modelled.
- PoolRoles.ValidateUniqueRoles: pool names only reach the message and are not modelled.
- AllocationCheck.CheckFabricVlanIds: the order of the findings, which follows the fabrics' names, is not modelled.
- AllocationCheck.CheckVipBlocks: a block that does not parse is not modelled.
- DnsRecords.RunsAgree: does not model the delete of a duplicate that is refused; in one run alone DnsAddresses does.
- DnsPinned.PinnedNameIsSafeExactly: is about runs that name one address, as those of one application do; runs that read the application before and after an edit of its address are not covered.
- DnsZone.CreatedNameFits: needs that application names are unique, since the check looks blocks up by name.
- FabricApp.Infrahub.Generate: a failure of the re-render request after the block is recorded is not modelled.
- AppHistory.TidyHistoryIsSafe: a run is not interleaved with edits by hand or other runs on the same application.
- WanIsolation.CheckExclusiveVrfs: the findings are exact as a set; the sorting of groups, and how often one service is named for one peer, are not modelled.
- DnsZone.CollectFindings: the findings are exact as a set; how often a record that is astray in several zones is reported is not modelled.
- SharedAsn.Infrahub.EnsureSharedDeviceAsn: reading the devices does not fail, and an allocation that fails leaves nothing.
- WorkspaceSubmission.Lifecycle.AppendOutcomeComment: the second lookup, which is by the id just read or created, finds that thread, finds none or raises; that it falls back to another thread of the same label is not modelled.
- WorkspaceSubmission.Lifecycle.SubmitWorkspace: which recorded URLs are valid, and how a URL is built from the configuration, is not modelled.
- WorkspaceSubmission.RunKeepsTruth: a request takes effect at once or not at all; a submission that completes only after the run is not modelled.
- Rules 5 and 6 of the WAN check, the VLAN reference rule, the peering and zone-advertisement checks: mostly single comparisons that would only add easy members.
- `tasks.py`, the query classes, the SDK, GraphQL and pyAVD calls, artifact rendering, logging and message texts.
- `generators/generate_avd_device_structured_config.py`, `generators/generate_fabric.py`, `checks/cv_config_check.py`: thin flows around libraries that are not part of this model.
- The derivations that look one object up in the query and raise when it is missing: firewall, policy, zones, protocol, source prefix.
