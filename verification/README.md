# Verification of the mock cloud store

This project models the stateful store behind a mock cloud API and proves what its calls keep. The store is a
hand-written layer over a relational schema of 44 tables. Every row holds indexed columns, some of them foreign keys,
and a JSON document. Beside the foreign keys, several references live in documents only and are kept by the code:
a load balancer's address, a DNS record's zone, the security group a server shows, the server an embedded volume
belongs to.

The project is layered.

- `Documents`, `Aliases`: JSON documents, the null-ignoring merge behind every update, and the field aliases that cluster
  and database updates translate. The merge is deliberately not JSON Merge Patch (section 2 of RFC 7396).
- `Relational`, `MockwaySchema`: one INSERT, UPDATE or DELETE under foreign keys with the actions restrict, cascade and
  set-null, and the concrete schema with its children-first table order.
- `Store`: the joint invariant `StoreInv` (constraints hold, documents spell their primary keys, columns agree with
  documents, every DNS record has its zone), and the shared create, update and delete.
- `Instances`, `InstanceLaws`, `Groups`, `Balancers`, `Dns`, `ChildSets`, `VolumePlaces`: the calls with more than one
  statement, as functions from store to store, and the laws about them.
- `DeclaredKeys`, `RowEffects`, `ChildEffects`, `ServerEffects`, `BalancerEffects`, `ZoneEffects`: what the calls do in terms
  of tables, columns and fields alone, without the functions that define them.
- `Statements`, `Repositories`: the repository object. Each call is the sequence of statements, loops and transactions
  the code runs, over the fields of a class, and its contract is the function of the layer below. The statements have the
  meaning `Relational` gives them, so the functions above are not definitions to be believed but results to be checked.
- `Runs`, `RunLaws`, `Frontends`: all public calls on the store as a step relation, and what holds in every store a run can
  reach. `SavedRuns` adds snapshots and restores, and shows that they reach no other stores.
- `StrandedAddresses`, `Teardown`: which stores can be emptied again through the public deletes.
- `Files`, `Lifecycle`: the database file, the interruptible migration, and snapshot, restore and reset.
- `Nodes`: Kubernetes node ids and the search that inverts them.

A call succeeds or fails as one sequential step. New ids are parameters of a call, constrained to be unused
(`Store.Fresh`, `Dns.NewIdsFor`). Loops over Go maps and over query results pick their next element arbitrarily, so what is
proved holds for every order.

## What the proofs found

- `Aliases.ClusterUpdateTwice`: a cluster update is idempotent except when it sends a null `enable` beside an `enabled` to
  a cluster whose `auto_upgrade` is not an object. The first application then stores null, the second the sent value;
  `Aliases.ClusterUpdateTwiceCanFail` is an input where it happens.
- `Documents.MergeComposes`: two merges equal one merge by the merged patches exactly when no stored object is hidden by an
  intermediate scalar; `Documents.MergeCompositionCanFail` is an input where the law fails.
- `Groups.PaddedGroupIdIsLost`: a server created with a group id that has surrounding blanks joins the group, and the next
  unrelated update takes it out again: the create trims the id for the column and keeps it padded in the document.
- `Groups.UpdateServerReconciles`, `Groups.NumericGroupIdOrphans`: an update breaks the agreement of column and document
  exactly when the merged `security_group` is an object whose id is not a string beside a stored `security_group_id`.
- `Balancers.DeleteLbDangles`, `Balancers.CrossZoneAddressIsStuck`: `DeleteLB` only looks for addresses in the balancer's
  zone, while `CreateLB` accepts an address of any zone. Such an address keeps naming the deleted balancer, and deleting it
  reports a conflict.
- `Teardown.EmptiedExactly`: a store can be emptied by public deletes exactly when every address that names a balancer names
  a stored one of its own zone. Any other address survives every sequence of deletes.
- `Frontends.BackendInUseGoes`, `Frontends.ServedOverRuns`: deleting a backend that a frontend names always succeeds, and is
  the one kind of call that leaves a frontend naming a missing backend. `Frontends.LostBackendRun` is a run that does it.
- `Nodes.ListedNodeFound`: a node listed under a region its pool does not lie in is not found there by its id.

## Model

| member | source | states |
|---|---|---|
| `Documents.PatchMergeLoop` | repository/repository.go:597-625 | the nested merge loops compute one map, whatever order the keys are visited in |
| `Documents.OverlayLoop` | repository/repository.go:613-621 | the inner loop lays the non-null sub-fields over the stored ones, in any order |
| `Documents.MergeAt` | repository/repository.go:597-625 | the merge key by key: protected names stay, null leaves the stored value, objects merge one level deep |
| `Documents.PatchedByCase` | repository/repository.go:603-622 | one key of a merge by cases: null, scalar, and object over object sub-field by sub-field |
| `Documents.MergeNeverErases` | repository/repository.go:590-596 | no patch turns a stored value, or a sub-field that stays inside an object, into null |
| `Documents.MergeIdempotent` | repository/repository.go:597-625 | merging the same patch again changes nothing |
| `Documents.MergeComposes` | repository/repository.go:597-625 | merging p then q is merging the merge of p and q, exactly unless a hidden stored object is not covered by q |
| `Documents.MergeCompositionCanFail` | repository/repository.go:597-625 | a concrete pair of patches for which composition fails |
| `Documents.TrimExact` | handlers/instance.go:145-145 | trimming takes off blanks only, and all of them, at both ends |
| `Documents.Blanks` | handlers/instance.go:145-145 | what counts as a blank: the ASCII and wide spaces, and no printable ASCII character |
| `Aliases.ClusterAliasGone` | repository/repository.go:1890-1908 | after create and after update no `enable` is left inside `auto_upgrade` |
| `Aliases.EnableTranslated` | repository/repository.go:1971-1980 | the value sent as `enable` is the one stored as `enabled` |
| `Aliases.ClusterUpdateTwice` | repository/repository.go:1966-1999 | applying a cluster update twice is applying it once, exactly when it is not a null alias |
| `Aliases.ClusterUpdateTwiceCanFail` | repository/repository.go:1966-1999 | a created cluster and a patch for which the second application stores another value than the first |
| `Aliases.TranslateFlags` | repository/repository.go:2208-2222 | the loop over the two flag names, against its closed form |
| `Aliases.FlagsTranslated` | repository/repository.go:2208-2222 | neither flat flag is left, and `backup_schedule.disabled` is the last flag applied |
| `Aliases.InstanceUpdateTwice` | repository/repository.go:2200-2236 | applying a database-instance update twice is applying it once |
| `Relational.DeleteIntact` | repository/repository.go:96-326 | a delete with cascade and set-null keeps every foreign key and NOT NULL constraint |
| `Relational.ClosureLeast` | repository/repository.go:96-326 | a cascade removes the least set closed under cascading references |
| `Relational.DeleteExact` | repository/repository.go:738-752 | when no set-null key refers into the deleted rows the survivors are exactly as they were |
| `MockwaySchema.MockwayFacts` | repository/repository.go:96-326 | the declared schema has every fact the proofs use, each key with its column, parent and action among them, and its key graph is acyclic: each child precedes its parent in the reset list |
| `MockwaySchema.ResetOrderComplete` | repository/repository.go:450-495 | every table is in the reset list, at its own place |
| `Store.CreateKeeps` | repository/repository.go:660-687 | a create keeps the joint invariant; on success exactly one row is new, its document spells its key and its looked-up references are stored; on failure nothing changed |
| `Store.PatchKeeps` | repository/repository.go:2086-2107 | an update keeps the joint invariant and stores the translated merge, whose looked-up references are stored; a failed one changes nothing |
| `Store.SetFieldKeeps` | repository/repository.go:754-772 | rewriting one document field keeps the invariant, and fails only when the row is missing |
| `Store.RemoveKeeps` | repository/repository.go:738-752 | a delete by key is not-found when the row is missing, a conflict exactly when a row outside the cascade refers into it by a restricting key, and otherwise removes exactly the cascade; no column is nulled and the invariant is kept |
| `DeclaredKeys.DeleteVpc` | repository/repository.go:802-802 | a VPC is kept exactly while a private network or a route holds its id; otherwise it goes alone |
| `DeclaredKeys.DeletePrivateNetwork` | repository/repository.go:837-839 | a private network is kept exactly while a gateway network, a NIC, a cluster or a balancer link holds its id |
| `DeclaredKeys.DeletePublicGateway` | repository/repository.go:976-978 | a public gateway is kept exactly while a gateway network holds its id |
| `DeclaredKeys.DeleteIamApplication` | repository/repository.go:2610-2612 | an application is kept exactly while an API key or a policy holds its id |
| `DeclaredKeys.DeleteBlockVolumeRow` | repository/repository.go:3405-3407 | a block volume is kept exactly while a snapshot holds its id |
| `DeclaredKeys.DeleteCluster` | repository/repository.go:2001-2015 | deleting a cluster succeeds when it is stored, and exactly its pools go with it |
| `DeclaredKeys.DeleteFrontend` | repository/repository.go:1765-1765 | a frontend goes with exactly its ACLs |
| `DeclaredKeys.DeleteRdbInstance` | repository/repository.go:2238-2253 | a database instance goes with exactly its databases, users, privileges, replicas, snapshots, ACLs and backups |
| `DeclaredKeys.DeleteIamPolicy` | repository/repository.go:2711-2713 | a policy goes with exactly its rules |
| `DeclaredKeys.DeleteIamGroup` | repository/repository.go:3298-3300 | a group goes with exactly its memberships |
| `DeclaredKeys.DeleteIamUser` | repository/repository.go:3213-3215 | a user goes with exactly its memberships |
| `DeclaredKeys.DeleteLeafRow` | repository/repository.go:738-752 | a row of any other table goes alone, and is never refused |
| `DeclaredKeys.OwnersStored` | repository/repository.go:96-326 | what holds the id of a group, a server or a balancer finds it stored |
| `Store.NothingNulled` | repository/repository.go:112-123 | no delete outside servers and groups can fire a set-null action |
| `Store.ListsAgree` | repository/repository.go:702-736 | listing by an indexed column returns exactly the rows whose own document has the value, for every value but the ones that stand for null |
| `Store.AddLabelKeeps` | repository/repository.go:845-850 | adding a marketplace label never fails, leaves the label stored and every other row as it was |
| `RowEffects.KeyOfRow` | repository/repository.go:96-326 | every row is stored under the key fields of its own document, or its own key columns, table by table |
| `RowEffects.RegionColumn` | repository/repository.go:702-736 | the tables whose region column always holds the document's region |
| `RowEffects.ZoneColumn` | repository/repository.go:702-736 | the tables whose zone column always holds the document's zone |
| `RowEffects.NetworkColumn` | repository/repository.go:702-736 | the tables whose network column always holds the document's network |
| `RowEffects.LbColumn` | repository/repository.go:702-736 | the tables whose balancer column always holds the document's balancer |
| `RowEffects.InstanceColumn` | repository/repository.go:702-736 | the tables whose instance column always holds the document's instance |
| `RowEffects.NameColumn` | repository/repository.go:702-736 | the tables whose name column always holds the document's name |
| `RowEffects.OwnColumns` | repository/repository.go:702-736 | the columns that one table alone has, and that always hold their field |
| `RowEffects.ListReturns` | repository/repository.go:702-736 | listing by such a column returns exactly the rows whose document has the value |
| `RowEffects.NullableColumns` | repository/repository.go:2911-2920 | an address's server, a cluster's network, a snapshot's volume and an application: null for an empty or blank text, else the field |
| `RowEffects.VpcOfNetwork` | repository/repository.go:2784-2810 | a private network always holds its VPC |
| `RowEffects.CreatedFields` | repository/repository.go:774-785 | a created document holds the path parameters and what was sent, but for its key, an address's balancer and a snapshot's volume |
| `RowEffects.CreatedClusterRow` | repository/repository.go:1890-1908 | a created cluster keeps a sent `enabled`, takes a sent `enable` in its place, or gets the default |
| `RowEffects.CreatedInstanceRow` | repository/repository.go:2120-2155 | a created database instance's schedule from the flag and the schedule sent, with its defaults |
| `RowEffects.PatchedFields` | repository/repository.go:597-625 | an updated document keeps its key fields and is the plain merge in every other, but for the two translated tables |
| `RowEffects.UpdatedClusterRow` | repository/repository.go:1966-1999 | an updated cluster stores the merged `enable` as `enabled` and leaves its other sub-fields merged |
| `RowEffects.UpdatedInstanceRow` | repository/repository.go:2200-2236 | an updated instance's schedule from the merged flags and schedule, with its defaults |
| `InstanceLaws.CreateServerAllOrNothing` | repository/repository.go:1164-1245 | a create succeeds exactly when all listed addresses are stored and free and the group exists; then exactly those belong to the new server, otherwise nothing changed |
| `InstanceLaws.AttachStep` | repository/repository.go:1231-1242 | the attach step after the insert cannot fail and writes the server into column and document |
| `InstanceLaws.UpdateIpExact` | repository/repository.go:2893-2925 | an address update keeps the invariant and succeeds exactly when the address and the server it ends with are stored; column and document then name that server, every other row and column stays, and a failure changes nothing |
| `InstanceLaws.UpdateServerMeans` | repository/repository.go:2812-2891 | the final UPDATE cannot fail: an update is refused for an unknown group or writes exactly the reconciled row |
| `InstanceLaws.DeleteServerKeeps` | repository/repository.go:1252-1281 | deleting a server keeps the invariant, never conflicts, and removes rows exactly when the server exists |
| `InstanceLaws.DeleteServerForgets` | repository/repository.go:1252-1281 | afterwards no address or interface names the server, and rows that did not name it are unchanged |
| `InstanceLaws.DeleteGroupKeeps` | repository/repository.go:1058-1081 | deleting a group keeps the invariant and never conflicts |
| `InstanceLaws.WithoutVolumeKeeps` | repository/repository.go:1283-1306 | taking an embedded volume out of a server keeps the invariant |
| `ServerEffects.DeleteServerExact` | repository/repository.go:1252-1281 | row by row: the server and its interfaces go, its addresses lose `server_id` and nothing else, all others stay |
| `ServerEffects.DeleteGroupExact` | repository/repository.go:1434-1476 | row by row: the group goes, its servers lose the two group fields and the column and nothing else |
| `ServerEffects.CreateServerStatus` | repository/repository.go:1174-1229 | success exactly when every listed address is stored and free and the named group is stored; the first listed one that is not decides conflict or not-found |
| `ServerEffects.CreatedServerFields` | repository/repository.go:1164-1230 | each column and each field of the created row, and every other field as it was sent |
| `ServerEffects.CreatedServerShowsIps` | repository/repository.go:1171-1200 | the created server shows one entry per listed address, in order, and the first of them |
| `ServerEffects.StringsSkip` | repository/repository.go:1173-1174 | entries of the list that are no strings, or empty, are skipped |
| `ServerEffects.CreateServerElsewhere` | repository/repository.go:1231-1242 | a listed address takes the server in column and field and keeps the rest; all other rows stay |
| `ServerEffects.UpdateIpFields` | repository/repository.go:2893-2925 | each column and field of an updated address |
| `ServerEffects.UpdateByGroupId` | repository/repository.go:2825-2841 | an update with `security_group_id`: its refusal, its columns and each field |
| `ServerEffects.UpdateByGroupString` | repository/repository.go:2842-2852 | an update with a plain string as group: the same |
| `ServerEffects.UpdateByGroupObject` | repository/repository.go:2853-2857 | an update with a group object that has an id: the same |
| `ServerEffects.UpdateWithoutGroup` | repository/repository.go:2842-2883 | an update that says nothing about groups: the same, from the stored document |
| `ServerEffects.NormalizedByCase` | handlers/instance.go:141-190 | for each kind of value sent, the group fields a normalised request has |
| `ServerEffects.DeleteEmbeddedVolume` | repository/repository.go:1283-1306 | a volume that only servers hold is taken out of one server of the zone, which changes in nothing else |
| `Groups.NormalizeServerSecurityGroup` | handlers/instance.go:141-190 | the case-by-case rewriting of a request computes its normal form |
| `Groups.NormalizedIsNormal` | handlers/instance.go:141-190 | the result has either no group at all, or an object with a string id whose trimmed form is `security_group_id` |
| `Groups.NormalizedElsewhere` | handlers/instance.go:141-190 | every other field of the request stays |
| `Groups.NormalizedTwice` | handlers/instance.go:141-190 | a normalised request is left alone |
| `Groups.CreateServerGroups` | repository/repository.go:1214-1230 | a normalised create keeps every server's group column equal to its document's stored group, and every shown group true |
| `Groups.UpdateServerReconciles` | repository/repository.go:2820-2883 | an update keeps that agreement exactly when it is not of the orphaning kind |
| `Groups.UpdateServerGroups` | repository/repository.go:2812-2891 | patches that send null, a string, or an object with a string id keep it |
| `Groups.UpdateServerSetsGroup` | repository/repository.go:2825-2841 | an explicit `security_group_id` decides alone: unknown is refused, empty detaches, stored is shown with the group's name |
| `Groups.PatchedShown` | repository/repository.go:2820-2883 | while group ids are unpadded, whatever an update sends, a stored group shown in the object is the one stored as `security_group_id` |
| `Groups.UpdateServerElsewhere` | repository/repository.go:2812-2819 | every other field is the plain merge, and no other row changes |
| `Groups.UnrelatedUpdateKeepsGroup` | repository/repository.go:2842-2883 | an update that names no group keeps the server in its group exactly when the shown and the stored id resolve alike |
| `Groups.NumericGroupIdOrphans` | repository/repository.go:2853-2858 | a patch that breaks the agreement |
| `Groups.PaddedGroupIdIsLost` | handlers/instance.go:153-166 | a padded group id is lost by the first unrelated update |
| `Groups.DeleteGroupForgets` | repository/repository.go:1434-1476 | after a group is deleted no server names it, in its column, its `security_group_id` or the `security_group` object it shows; its servers lose only those, the others are unchanged |
| `Balancers.CreateLbAllOrNothing` | repository/repository.go:1526-1584 | a create succeeds exactly when the chosen address is stored and free; then address and balancer name each other, otherwise nothing changed |
| `Balancers.CreateLbKeeps` | repository/repository.go:1526-1584 | creating a balancer keeps the joint invariant |
| `Balancers.DeleteLbExact` | repository/repository.go:1610-1671 | conflict exactly when the balancer has a frontend or backend, and then nothing at all changes |
| `Balancers.DeleteLbLeaves` | repository/repository.go:1610-1671 | afterwards no row names the balancer, released addresses lose only that, every other row stays |
| `Balancers.AttachmentBijection` | repository/repository.go:1526-1704 | an address names a balancer exactly when the balancer is stored and embeds it first |
| `Balancers.NoSharedIp` | repository/repository.go:1565-1568 | two balancers never embed the same stored address |
| `Balancers.CreateLbAttach` | repository/repository.go:1526-1584 | a create with an address of its own zone keeps the attachment invariant |
| `Balancers.DeleteLbAttach` | repository/repository.go:1625-1657 | a delete keeps it and leaves no address naming the balancer |
| `Balancers.DeleteLbIpAttach` | repository/repository.go:1694-1704 | deleting a free address keeps it |
| `Balancers.PatchAttach` | repository/repository.go:2927-2945 | updates that rewrite no zone, no `lb_id` of an address and no address list of a balancer keep it |
| `Balancers.DeleteLbDangles` | repository/repository.go:1627-1627 | an address still names a deleted balancer exactly when it lay in another zone |
| `Balancers.CrossZoneAddressIsStuck` | repository/repository.go:1694-1703 | such an address cannot be deleted any more |
| `BalancerEffects.CreateLbByIpIds` | repository/repository.go:1535-1541 | the first of `ip_ids` is the address whatever `ip_id` says: not-found, conflict, or both rows written, field by field |
| `BalancerEffects.CreateLbByIpId` | repository/repository.go:1542-1577 | without a usable first entry `ip_id` is the address, and without that an address is made inline |
| `BalancerEffects.DeleteLbByRow` | repository/repository.go:1610-1671 | row by row: what refuses the delete, what goes, which addresses lose `lb_id` and nothing else |
| `BalancerEffects.DeleteLbIpExact` | repository/repository.go:1694-1704 | an address that names a balancer is a conflict, any other goes alone |
| `Dns.CreateZoneKeeps` | repository/repository.go:2437-2473 | creating a zone keeps the invariant, its key recomputed from the document included |
| `Dns.DeleteZoneExact` | repository/repository.go:2503-2509 | a delete removes the zone and its records; one that reports not-found changed nothing, although records are deleted first |
| `Dns.PatchRecordsIsFold` | repository/repository.go:2511-2575 | the zone's records are afterwards the fold of the change list, and no other zone's record changes |
| `Dns.SetReplayed` | repository/repository.go:2537-2570 | in the fold, replaying a set whose records carry its id_fields gives the same records up to new ids |
| `Dns.SetSentTwice` | repository/repository.go:2511-2575 | sending such a set twice to a stored zone succeeds twice, ends with the records of the first call up to new ids, and touches no other zone |
| `Dns.ZoneFilterExact` | handlers/domain.go:46-60 | filtering by the recomputed key returns exactly the row with that primary key |
| `Dns.FilterZones` | handlers/domain.go:46-60 | the loop keeps exactly the matching zones, in order |
| `ZoneEffects.ChangeKeepsRecord` | repository/repository.go:2533-2558 | after a change a former record is still there, unchanged, exactly if "delete" does not name it and some id_field differs from its own field |
| `ZoneEffects.ChangeStoresRecord` | repository/repository.go:2517-2571 | a record sent under "set" is stored under its new id, one under "add" exactly if the rest of the change spares it |
| `ZoneEffects.ChangeElsewhere` | repository/repository.go:2511-2575 | no other row appears, changes or goes |
| `ZoneEffects.ChangesOneByOne` | repository/repository.go:2516-2573 | a list of changes does what its changes do one call after another |
| `ZoneEffects.NoChanges` | repository/repository.go:2511-2515 | an empty list changes nothing |
| `ZoneEffects.ObjectsOf` | repository/repository.go:2520-2524 | records that are objects are taken in order |
| `ZoneEffects.ObjectsSkip` | repository/repository.go:2521-2524 | entries that are no objects are skipped |
| `ZoneEffects.ZoneKeySpelled` | repository/repository.go:2437-2445 | a zone is named by its subdomain, a dot and its domain, or by its domain alone |
| `ZoneEffects.CreateZoneExact` | repository/repository.go:2437-2473 | a create stores the row under that name, or conflicts exactly when the name is taken |
| `ZoneEffects.DeleteZoneByRow` | repository/repository.go:2503-2509 | row by row: the zone and its records go, all others stay |
| `ChildSets.SetPrivilegesExact` | repository/repository.go:2317-2356 | exactly the requested privileges are installed, or nothing changes; a repeat is a conflict |
| `ChildSets.SetRulesExact` | repository/repository.go:2731-2763 | the policy ends with one row per requested rule, under its own id, and no others; only a missing policy fails |
| `ChildSets.SetMembersExact` | repository/repository.go:3318-3338 | exactly the listed members are installed, or nothing changes; a conflict exactly when a user repeats before any user that cannot join, otherwise not-found |
| `ChildSets.CreatePolicyKeeps` | repository/repository.go:2660-2701 | a policy is stored with one row per inline rule, under its own id, and no others, and no other row changes; or nothing is stored |
| `ChildSets.AddMemberKeeps` | repository/repository.go:3302-3308 | it succeeds exactly when group and user exist; a membership already stored leaves the store as it is, otherwise exactly its row is added |
| `ChildSets.RemoveMemberKeeps` | repository/repository.go:3310-3316 | afterwards the membership is gone and every other row is as it was; not-found exactly when the group is missing, and then nothing changed |
| `ChildSets.SetAclsKeeps` | repository/repository.go:2364-2378 | the rules become the instance's one ACL row, inserted or overwritten, or the instance is missing and nothing changes |
| `ChildSets.ClearAclsKeeps` | repository/repository.go:2404-2412 | exactly the instance's ACL row goes, or the instance is missing and nothing changes |
| `ChildEffects.RulesSet` | repository/repository.go:2743-2757 | the i-th rule is the i-th document sent, with its id and policy and nothing else changed |
| `ChildEffects.RulesOnly` | repository/repository.go:2738-2742 | no other rule of the policy is left |
| `ChildEffects.PolicyStored` | repository/repository.go:2677-2697 | the inline rules of a created policy likewise |
| `ChildEffects.PrivilegesSet` | repository/repository.go:2331-2350 | each privilege sent is stored under its instance, user and database, as it was sent |
| `ChildEffects.PrivilegesOnly` | repository/repository.go:2324-2330 | no other privilege of the instance is left |
| `ChildEffects.MembersSet` | repository/repository.go:3318-3338 | afterwards a user is in the group exactly when it is listed |
| `ChildEffects.MemberAdded` | repository/repository.go:3302-3316 | adding and removing one membership, by its own key |
| `ChildEffects.AclsSet` | repository/repository.go:2364-2412 | the instance's one ACL row holds the rules as they were sent, or is gone |
| `ChildEffects.UpdateFrontendStatus` | repository/repository.go:1737-1763 | an update of a frontend succeeds exactly when the balancer and the backend it ends with are stored |
| `ChildEffects.UpdateRouteStatus` | repository/repository.go:3990-4030 | an update of a route succeeds exactly when its balancer and both ends are stored, the ends of one balancer if the frontend has one |
| `VolumePlaces.VolumeDeleteOutcome` | handlers/block.go:64-84 | in every store a delete succeeds exactly when the lookup finds the volume and no snapshot holds it; a snapshot is a conflict; failures change nothing |
| `VolumePlaces.VolumeDeleteForgets` | handlers/block.go:25-39 | after a successful delete the lookup fails, and one row at most changed |
| `VolumePlaces.CreateServerVolumes` | repository/repository.go:1203-1213 | a new server's volume id is in no other place |
| `VolumePlaces.CreateVolumeVolumes` | repository/repository.go:1342-1361 | a new standalone or block volume id is in no other place |
| `Statements.DeleteServerLast` | repository/repository.go:1264-1280 | when the server's row is deleted nothing refers to it, so set-null fires on no live column and the row goes alone |
| `Statements.DeleteGroupLast` | repository/repository.go:1065-1080 | likewise for a group and its servers |
| `Statements.LbDeleteRefused` | repository/repository.go:1659-1662 | a frontend or backend makes the last statement of DeleteLB fail |
| `Statements.LbClosureExact` | repository/repository.go:317-326 | the cascade from a balancer takes exactly its routes and certificates |
| `Statements.InsertMember` | repository/repository.go:3327-3331 | the three outcomes of one membership INSERT, in the order they are checked |
| `Statements.DeleteRecords` | repository/repository.go:2553-2555 | deleting records of a zone by id removes exactly those |
| `Repositories.Repository.constructor` | repository/repository.go:31-69 | opening an old, new or interrupted file brings up exactly its original rows |
| `Repositories.Repository.Init` | repository/repository.go:93-340 | runs the start-up statements and leaves foreign keys enforced, also after an error |
| `Repositories.Repository.Migrate` | repository/repository.go:401-426 | runs the recorded-version check and the migration, and turns enforcement back on |
| `Repositories.Repository.Snapshot` | repository/repository.go:512-520 | replaces the saved file by the live one |
| `Repositories.Repository.Restore` | repository/repository.go:522-554 | brings the saved file back on a connection that starts without enforcement and ends with it, or reports not-found |
| `Repositories.Repository.Reset` | repository/repository.go:449-510 | empties every table, keeps the versions, drops the snapshot; constraints hold after every step of the loop |
| `Repositories.Repository.Create` | repository/repository.go:774-785 | the create statement has the effect specified |
| `Repositories.Repository.Patch` | repository/repository.go:1966-1999 | read, merge, translate and write back have the effect specified |
| `Repositories.Repository.Remove` | repository/repository.go:738-752 | the delete statement has the effect specified |
| `Repositories.Repository.SetField` | repository/repository.go:754-772 | the one-field document UPDATE has the effect specified |
| `Repositories.LookUpReferences` | repository/repository.go:3997-4018 | the lookups find a dangling reference exactly when the backend, or an end of the route, is missing or of another balancer |
| `Repositories.Repository.UpdateIp` | repository/repository.go:2893-2925 | the server alias is translated and written to column and document |
| `Repositories.Repository.CreateServer` | repository/repository.go:1164-1245 | the check loop, the insert and the attach loop have the all-or-nothing effect specified |
| `Repositories.Repository.UpdateServer` | repository/repository.go:2812-2891 | the branches over patch and document compute the reconciled row |
| `Repositories.Repository.DeleteServer` | repository/repository.go:1252-1281 | detach loop, interface delete and server delete have the effect specified |
| `Repositories.Repository.DeleteSecurityGroup` | repository/repository.go:1058-1081 | detach loop and group delete have the effect specified |
| `Repositories.DetachIps` | repository/repository.go:1391-1432 | one UPDATE per address, in any order, detaches exactly the server's addresses |
| `Repositories.DetachServers` | repository/repository.go:1434-1476 | one UPDATE per server, in any order, detaches exactly the group's servers |
| `Repositories.Repository.GetBlockVolume` | handlers/block.go:25-39 | finds a volume exactly when one of the three places holds it, and returns the first |
| `Repositories.Repository.DeleteBlockVolume` | handlers/block.go:64-84 | the staged chain of deletes does what the lookup order says |
| `Repositories.Repository.DeleteInstanceVolume` | repository/repository.go:1283-1306 | takes the volume out of one server of the zone that holds it, or reports not-found |
| `Repositories.Repository.CreateLb` | repository/repository.go:1526-1584 | choice of address, insert and address update have the effect specified |
| `Repositories.Repository.DeleteLb` | repository/repository.go:1610-1671 | link delete, release loop and balancer delete, rolled back on a conflict, have the effect specified; conflict exactly when a frontend or backend is left |
| `Repositories.ReleaseIps` | repository/repository.go:1625-1657 | the loop releases exactly the balancer's addresses in its zone |
| `Repositories.Repository.DeleteLbIp` | repository/repository.go:1694-1704 | an attached address is a conflict |
| `Repositories.Repository.CreateDnsZone` | repository/repository.go:2437-2473 | the zone is stored under the key computed from subdomain and domain |
| `Repositories.Repository.DeleteDnsZone` | repository/repository.go:2503-2509 | two committed statements have the effect specified |
| `Repositories.Repository.PatchDomainRecords` | repository/repository.go:2511-2575 | the nested loops, each statement committed on its own, compute the fold of the change list |
| `Repositories.Repository.ApplyOneChange` | repository/repository.go:2516-2573 | one change: add, delete by id, replace what matches |
| `Repositories.Repository.DeleteMatching` | repository/repository.go:2542-2558 | the loop deletes exactly the zone's records that match id_fields |
| `Repositories.RecordMatches` | repository/repository.go:2545-2551 | the inner loop decides whether every field matches |
| `Repositories.Repository.SetRdbPrivileges` | repository/repository.go:2317-2356 | delete and insert loop in one transaction have the effect specified |
| `Repositories.Repository.SetIamRules` | repository/repository.go:2731-2763 | delete and insert loop in one transaction have the effect specified |
| `Repositories.Repository.SetIamGroupMembers` | repository/repository.go:3318-3338 | delete and insert loop in one transaction, then the read of the group, have the effect specified |
| `Repositories.Repository.CreateIamPolicy` | repository/repository.go:2660-2701 | the policy's INSERT and one committed INSERT per rule: no rule can fail, so there is no partial result |
| `Repositories.Repository.AddIamGroupMember` | repository/repository.go:3302-3308 | INSERT OR IGNORE has the effect specified |
| `Repositories.Repository.RemoveIamGroupMember` | repository/repository.go:3310-3316 | the DELETE, then the read of the group, have the effect specified |
| `Repositories.Repository.SetRdbAcls` | repository/repository.go:2364-2378 | the upsert has the effect specified |
| `Repositories.Repository.ClearRdbAcls` | repository/repository.go:2404-2412 | the check and the DELETE have the effect specified |
| `Repositories.Repository.AddMarketplaceLabel` | repository/repository.go:845-850 | INSERT OR IGNORE has the effect specified |
| `Runs.StepKeeps` | repository/repository.go:787-4173 | every public call on the store keeps the joint invariant and touches only its tables; a failed call changes nothing |
| `Runs.RunsKeepTheStore` | repository/repository.go:787-4173 | the joint invariant holds in every store of every run of such calls from a first start-up |
| `SavedRuns.RunWithoutRestores` | repository/repository.go:512-554 | with snapshots and restores among the calls, every live store is the last one of a run without them, made of steps of the same history |
| `SavedRuns.SavedRunsKeepTheStore` | repository/repository.go:512-554 | so the joint invariant holds of every live store and every snapshot |
| `SavedRuns.NoneStrandedOverSavedRuns` | repository/repository.go:512-554 | and laws with a condition on the calls carry over: histories of home calls strand no address |
| `RunLaws.SampleRun` | repository/repository.go:1044-1245 | the runs are not empty: one creates a group and then a server in it, which column and document agree on |
| `RunLaws.GroupsOverRuns` | repository/repository.go:2812-2891 | over runs of normalised creates and shaped patches, a server's column is Some(x) exactly when its document names x and group x is stored, and a stored group it shows is x |
| `RunLaws.AttachmentOverRuns` | repository/repository.go:1526-1704 | over runs whose balancers take addresses of their own zone, the attachment is a partial bijection |
| `RunLaws.VolumesOverRuns` | repository/repository.go:1283-1389 | while no update rewrites `volumes`, a volume id lives in at most one place |
| `RunLaws.AliasesOverRuns` | repository/repository.go:1966-1999 | no reachable cluster document has `enable` inside `auto_upgrade` |
| `RunLaws.InstanceUpdateStored` | repository/repository.go:2200-2236 | an update result stores neither flat flag, and the last one sent as the schedule's |
| `RunLaws.ListsAgreeOverRuns` | repository/repository.go:702-736 | in every reachable store listing by a column is filtering by the document, for every value but the ones that stand for null |
| `Frontends.ServedStep` | repository/repository.go:1706-1763 | from a store where they have, one call keeps that exactly when it is not such a delete |
| `Frontends.ServedOverRuns` | repository/repository.go:1706-1763 | in a whole run every frontend has its backend in every store exactly when no call deletes a backend that a frontend names |
| `Frontends.BackendInUseGoes` | repository/repository.go:1838-1838 | deleting a backend that a frontend names succeeds and leaves the frontend naming it |
| `Frontends.LostBackendRun` | repository/repository.go:1706-1838 | a run of four calls that ends so |
| `Frontends.ServingCreated` | repository/repository.go:1706-1727 | a frontend or backend with a new id is stored exactly when its balancer and the backend it names are, and otherwise nothing changes |
| `Teardown.LowestDeletes` | repository/repository.go:738-752 | a row with no deletable row in an earlier table can be deleted |
| `Teardown.CanBeTornDown` | repository/repository.go:96-326 | from every invariant store without stranded addresses a children-first schedule of public deletes succeeds at every call, strictly shrinks the store, and leaves labels only |
| `Teardown.ReachableCanBeTornDown` | repository/repository.go:1610-1704 | every store reached with addresses of their own zone, and no update of an `lb_id` or a zone, can be torn down |
| `StrandedAddresses.NoneStrandedOverRuns` | repository/repository.go:1526-1704 | such runs strand no address, whatever updates of `ip` they send |
| `StrandedAddresses.StrandedForever` | repository/repository.go:1610-1704 | a stranded address is still there, and still stranded, after any sequence of public deletes |
| `Teardown.EmptiedExactly` | repository/repository.go:1610-1704 | a store can be emptied by public deletes exactly when it has no stranded address |
| `Files.RecreatePrefix` | repository/repository.go:358-393 | after any prefix of one table's rebuilding no row is lost |
| `Files.InterruptedStartUp` | repository/repository.go:345-426 | after any number of statements no row is lost and no statement fails; at the end the original rows, the version recorded, and no table declared as before it |
| `Files.CurrentStartUp` | repository/repository.go:401-407 | a start-up on a migrated file changes nothing |
| `Files.RestartedStartUps` | repository/repository.go:345-426 | after any number of interrupted start-ups the first completed one restores exactly the original rows, and later ones change nothing |
| `Files.OldFileRecoverable` | repository/repository.go:96-340 | an old or empty file is a place to start from |
| `Lifecycle.EmptiedIntact` | repository/repository.go:497-508 | emptying tables unchecked keeps the constraints exactly when no surviving row refers into them |
| `Lifecycle.ResetPrefixIntact` | repository/repository.go:450-508 | every prefix of the reset loop leaves all constraints intact |
| `Lifecycle.ResetEmpties` | repository/repository.go:450-508 | the whole loop empties every resource table |
| `Lifecycle.SavedIsLatest` | repository/repository.go:512-561 | the snapshot file is always the live file of the latest snapshot since the last reset |
| `Lifecycle.RestoreReturnsSnapshot` | repository/repository.go:522-554 | restore brings exactly that file back, any number of times, or reports not-found and changes nothing |
| `Lifecycle.ResetClears` | repository/repository.go:449-510 | a reset leaves no row and no snapshot, and keeps versions and tables |
| `Nodes.NodeNameInjective` | handlers/k8s.go:120-120 | the pool-and-index name tells pool and index apart, whatever the pool id contains |
| `Nodes.DecimalValue` | handlers/k8s.go:120-120 | the index in a node's id and name is its decimal, without leading zeros |
| `Nodes.ListClusterNodes` | handlers/k8s.go:98-140 | the nested loops list the nodes of all pools |
| `Nodes.NodesOfPool` | handlers/k8s.go:111-130 | the listed nodes that name a pool are one stretch, as many as its size cut to an integer and one when that is less; each with its id, name, cluster and region spelled out |
| `Nodes.ListedIdsDistinct` | handlers/k8s.go:98-140 | listed node ids are distinct |
| `Nodes.GetNode` | handlers/k8s.go:52-96 | returns a node that a pool of the region answers for, and nothing exactly when none does |
| `Nodes.NodeLookedUp` | handlers/k8s.go:62-93 | under the pool's region the id of index i is found exactly when i is less than that count |
| `Nodes.ListedNodeFound` | handlers/k8s.go:52-140 | looking a listed node up gives exactly it when its pool lies in the region, and not-found otherwise |
| `Nodes.FoundNodeListed` | handlers/k8s.go:52-140 | a node that is found is listed by its own cluster |

## Left out

- Values no property depends on: timestamps, default fields, static catalogues, fake addresses, random strings, certificates.
- Order of listed rows: a list call is the set of rows it returns; only the zone filter and the node list keep an order.
- Embedded copies inside documents (`lb`, `backend`, `frontend` objects): written at most when their own row is.
- Field names beyond the ones the code mentions: one constructor, `Other`, carries every other name.
- Numbers: JSON numbers are reals; the overflow of a node count beyond 64 bits is not modelled.
- Sharing of Go maps: documents are values, so a caller's map edited in place by an update is not modelled.
- Interleaved requests: each call is one sequential step.
- File-system failures, failed renames and closes, and the internals of `VACUUM` and `ALTER TABLE`: their documented effect is
  taken as given.
- Request decoding, routing, authentication and error bodies: plumbing without an invariant.
- Redis and volume defaults on update, database endpoints as lists and the check of their private networks,
  `DeleteRDBACLs` for single addresses: single-branch details of tables that follow the shared pattern.
  `UpdateIAMAPIKey` also drops `secret_key`, which no property mentions.
- `id_fields` holding arrays or objects: comparing such values panics in the code; only scalar values are meant here.
- `instance_servers.zone` and `instance_ips.zone` against documents: no update rewrites these columns, so they may differ.
- Groups.CreateServerGroups: asks for a request in the form the handler's normalisation leaves; a direct call with another
  form is not covered.
- RunLaws.AttachmentOverRuns: asks that balancers take addresses of their own zone and that no patch rewrites a zone, an
  address's `lb_id` or a balancer's `ip`; without the first, `Balancers.CrossZoneAddressIsStuck` shows it fails.
- Teardown.ReachableCanBeTornDown: asks for addresses of their own zone and no patch of `lb_id` or a zone, which is what keeps
  addresses from being stranded; `Teardown.EmptiedExactly` says exactly which stores can be emptied.
- Teardown.CanBeTornDown: marketplace labels stay, because the repository has no call that deletes one.
