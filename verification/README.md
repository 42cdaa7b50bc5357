# PgBouncer K8s charm: a verified model

This Dafny project models the stateful core of the PgBouncer K8s operator and of the charm libraries it
ships, and proves what its parts promise together.

- `Upgrade`, `UpgradeUnit`: the rolling-upgrade coordinator. `UpgradeUnit.DataUpgrade` runs the handlers
  step by step on unit states, the persisted stack, the cached stack and the StatefulSet partition; each is
  proved to leave what a function of `Upgrade` says. `K8sRun` proves safety over whole runs, `K8sRecovery`
  shows what its assumption on restarts rules out, `K8sProgress` proves progress and the stack invariant, and
  `VmRun` mutual exclusion under stale reads.
- `RelationDatabases`, `PgbConfig`, `Barrier`: the relation-to-database map that the leader writes, the
  configuration that every unit derives from it, and the barrier that holds credentials back until every
  peer has rendered it. `Barrier` also follows the auth function through all requests and removals.
- `DataDiff`: databag snapshots turned into events, exactly one request per appearance, status replay.
- `ProviderStore`: a relation's fields spread over a databag and grouped secrets, refining one map.
- `KeyNames`, `PeerSecrets`: the charm's own secrets with old databag copies, tombstones and translated
  names, refining one map.
- `SecretCache`: cached secrets, their coherence with Juju's store and the migration from legacy labels.
- `ScrapeJobs`, `JobNames`: wildcard expansion and de-duplication of scrape jobs.
- `ConnectionString`: the printer and parser of key=value strings.
- `Options`, `Lists`, `Texts`, `OrderedDict`: shared data types and splitting of texts; a dictionary is an ordered list of pairs where its
  order shows in a digest or a string.

Where the code does not do what its documentation says, the model follows the code and lemmas say when:

- A unit in recovery that restarts on its old pod may lower the partition, or lose its place on the stack and
  so let a later resume lower the partition too far. Only middle units can, and a lemma says exactly which
  restarts keep the invariant behind the safety of all runs.
- Deleting several provider fields deletes no secret field unless one secret holds them all.
- Removing a peer secret leaves an old databag copy under its untranslated name; setting a key whose
  translated name is still in the databag hides every other secret for the rest of the hook, and loses the
  value after it.
- Overwriting a cached secret with nothing removes it but leaves its old content cached.
- Names ending in `_readonly` or `_standby` clash with aliases and are lost by the recovery from an old
  configuration, which takes the wildcard for a name.
- A status raised while a subordinate is not ready can stay raised for ever.
- A legacy relation gets its credentials before the backend accepted them.

## Model

| member | source | states |
|---|---|---|
| `Upgrade.ClusterState` | lib/charms/data_platform_libs/v0/upgrade.py:637-654 | the cluster's state is the state of a unit nobody is behind, and there is none exactly when there are no units or some unit wrote no state |
| `Upgrade.TrimIsMaximal` | lib/charms/data_platform_libs/v0/upgrade.py:984-1000 | one leader call drops exactly the maximal completed suffix of the stack: a cut is what remains if and only if all above it completed and its own top did not |
| `Upgrade.ChangedAfterPop` | lib/charms/data_platform_libs/v0/upgrade.py:992-1000 | the recursive call after a pop gives what one call on the whole stack gives |
| `Upgrade.ChangedIsLocal` | lib/charms/data_platform_libs/v0/upgrade.py:944-1020 | in a failed cluster, and on VM in a recovering one, the upgrade-changed handler does nothing; otherwise the leader leaves the trimmed stack, and no state but the unit's own changes |
| `Upgrade.FollowerShortensItsCopy` | lib/charms/data_platform_libs/v0/upgrade.py:984-1000 | a follower never writes the stack; it takes the top off the copy in its own process |
| `Upgrade.GrantedIff` | lib/charms/data_platform_libs/v0/upgrade.py:1002-1014 | a unit is granted its upgrade if and only if it is on top of what is left of the stack, every unit is ready or further, some unit is only ready and no other is upgrading |
| `Upgrade.SettlesIff` | lib/charms/data_platform_libs/v0/upgrade.py:960-975 | a completed unit goes back to idle if and only if nothing is left of the stack, no unit has failed or recovers, and some unit is idle or all have completed |
| `Upgrade.PreCheckNeedsAHealthyCluster` | lib/charms/data_platform_libs/v0/upgrade.py:776-823 | only a leader's pre-check changes anything: in a failed cluster it puts the leader in recovery and repairs the stack, otherwise it needs an idle cluster, checks that pass and a patch that works, and stacks every unit with the highest ordinal on top |
| `Upgrade.ResumeMovesIff` | lib/charms/data_platform_libs/v0/upgrade.py:825-854 | the partition moves, to the top of the stack, if and only if a leader finds exactly one unit missing from it and the patch works |
| `Upgrade.CharmHookWrites` | lib/charms/data_platform_libs/v0/upgrade.py:890-942 | without a stack the upgrade-charm hook does nothing; with one the unit that checks the versions fails if they are not supported, any other is upgrading on K8s and ready on VM |
| `Upgrade.PebbleReadyNeedsChecks` | src/upgrade.py:143-172 | a pebble-ready hook whose checks fail, or of a unit neither upgrading nor recovering, changes nothing; otherwise the unit completes, a middle ordinal lowers the partition to the next or fails, and the leader trims the stack |
| `Upgrade.RepairKeepsTheOldStack` | lib/charms/data_platform_libs/v0/upgrade.py:699-721 | for every visiting order, repair keeps the old stack in order with its top on top and inserts the missing units just below that top |
| `Upgrade.RepairListsEveryUnitOnce` | lib/charms/data_platform_libs/v0/upgrade.py:699-721 | from a duplicate-free stack of known units, the repaired stack is a permutation of all units with the old top on top |
| `UpgradeUnit.DataUpgrade.constructor` | lib/charms/data_platform_libs/v0/upgrade.py:506-520 | a handler process starts with the shared data it finds and no cached stack |
| `UpgradeUnit.DataUpgrade.UpgradeStack` | lib/charms/data_platform_libs/v0/upgrade.py:572-593 | the getter caches a non-empty persisted stack once and then answers from the cache |
| `UpgradeUnit.DataUpgrade.Persist` | lib/charms/data_platform_libs/v0/upgrade.py:595-607 | the setter writes the databag and the cache |
| `UpgradeUnit.DataUpgrade.OnUpgradeChanged` | lib/charms/data_platform_libs/v0/upgrade.py:944-1020 | the recursive handler terminates on the length of the stack and leaves exactly the states, stack, cache and grant of the specification that trims the whole completed suffix at once |
| `UpgradeUnit.DataUpgrade.GrantSelf` | lib/charms/data_platform_libs/v0/upgrade.py:1002-1014 | a unit is granted its upgrade exactly when it is on top, every unit is ready or further and no other is upgrading |
| `UpgradeUnit.DataUpgrade.SetUnitFailed` | lib/charms/data_platform_libs/v0/upgrade.py:723-739 | a failing unit writes its state, and a failing leader forgets its cached stack |
| `UpgradeUnit.DataUpgrade.RepairUpgradeStack` | lib/charms/data_platform_libs/v0/upgrade.py:699-721 | the loop repairs and persists the stack exactly for a leader of a failed or recovering cluster with an incomplete stack, and otherwise changes nothing shared |
| `UpgradeUnit.DataUpgrade.PreUpgradeCheckAction` | lib/charms/data_platform_libs/v0/upgrade.py:776-823 | on either substrate the action changes exactly what its specification says in each of its branches: follower, failed cluster, cluster at work, failed checks, success |
| `UpgradeUnit.DataUpgrade.ResumeUpgradeAction` | lib/charms/data_platform_libs/v0/upgrade.py:825-854 | the partition moves to the new top only for a leader whose stack is one shorter than the units |
| `UpgradeUnit.DataUpgrade.OnUpgradeCharm` | lib/charms/data_platform_libs/v0/upgrade.py:890-942 | a K8s unit is upgrading, a VM unit ready and, if it is the only one, granted; the unit that checks the versions fails if they are not supported; a recovering VM leader on top starts at once; without a stack nothing changes |
| `Upgrade.SecondCallLosesTopIff` | lib/charms/data_platform_libs/v0/upgrade.py:984-1000 | a second leader call that goes on with the cache of the first drops an unfinished top from the persisted stack if and only if the unit below it says it completed |
| `UpgradeUnit.DataUpgrade.OnUpgradeFinished` | lib/charms/data_platform_libs/v0/upgrade.py:1039-1073 | the leader updates the stack, the highest and lowest ordinal leave the partition alone, every other lowers it to the next ordinal or fails |
| `UpgradeUnit.DataUpgrade.OnPebbleReady` | src/upgrade.py:143-172 | an upgrading or recovering unit whose checks pass completes and runs what follows completion; any other unit changes nothing |
| `K8sRun.EveryRunIsSafe` | lib/charms/data_platform_libs/v0/upgrade.py:776-1073 | over every run of one refresh, with failures, repeated pre-checks and resumes, leader changes and every restart of a recovering unit but two kinds (on an old pod, a middle unit whose patch works, or one that loses its place on a stack that is not empty): every ordinal above the partition completed, at most one replaced pod is unfinished, at most one unit is upgrading |
| `K8sRun.OnlyCheckedUnitsArePassed` | src/upgrade.py:164-171 | over every such run, each ordinal above the partition had its pod replaced, got its upgrade-charm hook there and then a pebble-ready hook whose checks passed |
| `K8sRun.StepKeepsInv` | lib/charms/data_platform_libs/v0/upgrade.py:776-1073 | every allowed step of operator, environment and handlers keeps the invariant behind the safety theorem |
| `K8sRun.RestartKeepsInvIff` | src/upgrade.py:143-172 | the restart of a recovering unit keeps the invariant of all runs if and only if its pod was replaced, or its checks fail, or it is the first or last ordinal, or its patch fails and the leader's update leaves it on the stack or leaves nothing |
| `K8sRun.SmallClustersAreSafe` | lib/charms/data_platform_libs/v0/upgrade.py:776-1073 | with one or two units every run is safe, with restarts of any kind |
| `K8sRecovery.NextStateIsSafeIff` | src/upgrade.py:143-172 | the next state alone is safe exactly when such a restart does not lower the partition, which is not enough |
| `K8sRecovery.LostPlaceEndsUnsafe` | lib/charms/data_platform_libs/v0/upgrade.py:788-793 | a concrete run of three units with a single restart outside the assumption, which drops unit 1 from the stack and lowers nothing: every state is safe until, after allowed steps only, a resume moves the partition below unit 1, which never got a new pod |
| `K8sRecovery.OneRestartIsEnough` | lib/charms/data_platform_libs/v0/upgrade.py:788-793 | a concrete run of three units after which the restart of a recovering leader lowers the partition below itself at once |
| `K8sProgress.StepLowersMeasure` | lib/charms/data_platform_libs/v0/upgrade.py:825-1073 | every effective step of a failure-free run lowers a well-founded measure and keeps the shape of the run |
| `K8sProgress.CheckAndRefreshStart` | lib/charms/data_platform_libs/v0/upgrade.py:795-823 | a successful pre-check by the leader and the refresh lead from all units idle to the start of the progress theorem |
| `K8sProgress.NeverStuck` | lib/charms/data_platform_libs/v0/upgrade.py:825-1073 | as long as some unit is not idle or the stack is not empty, some step is effective |
| `K8sProgress.UpgradeFinishes` | lib/charms/data_platform_libs/v0/upgrade.py:825-1073 | a failure-free run with one resume and any changes of the lead has a bounded number of effective steps, and where none is left all units are idle and completed, the stack is empty and the partition is 0 |
| `K8sProgress.StackStaysSorted` | lib/charms/data_platform_libs/v0/upgrade.py:776-1073 | in every run in which no unit fails, with leader changes, repeated pre-checks and resumes, the persisted stack is a prefix of the sorted unit ids, and every id missing from it completed |
| `K8sProgress.SecondCallStaysHealthy` | lib/charms/data_platform_libs/v0/upgrade.py:984-1000 | in such a run a second leader call that goes on with the cache of the first keeps the safety invariant, the sorted stack, and every unfinished unit on it |
| `VmRun.OneUnitAtATime` | lib/charms/data_platform_libs/v0/upgrade.py:944-1020 | with stale reads of the stack and of other units' states, at most one unit is upgrading, and everything ordered to upgrade before it has completed |
| `VmRun.StepKeepsInv` | lib/charms/data_platform_libs/v0/upgrade.py:944-1020 | every step on stale data keeps: a persisted stack with a unit on top appears only after everything above that unit completed |
| `RelationDatabases.GenerateRelationDatabases` | src/charm.py:904-955 | the loops over the three endpoints compute the specified map over all relations |
| `RelationDatabases.ByEndpointMembers` | src/charm.py:911-929 | going through the relations endpoint by endpoint loses none and repeats none |
| `RelationDatabases.ByEndpointInOrder` | src/charm.py:911-929 | legacy relations come before clients, those of admins after the others, and relations of one endpoint in the order they came in |
| `RelationDatabases.CollectEndpoint` | src/charm.py:911-947 | one endpoint's loop adds its relations to what was collected before |
| `RelationDatabases.GeneratedLookup` | src/charm.py:911-938 | each relation that asks for a database is listed under its id with its own name, and one that does not ask is not listed |
| `RelationDatabases.GeneratedListsNothingElse` | src/charm.py:911-952 | no other id is listed; the wildcard is listed exactly when some relation is a legacy admin that asks or a client with one of eight roles, and it authenticates against the database of the relation that comes last |
| `PgbConfig.RelationConfig` | src/charm.py:957-1009 | the loop over the map computes the specified section, empty without a backend |
| `PgbConfig.KeysAreExact` | src/charm.py:980-1000 | the keys are exactly the requested names and those aliases that are shorter than 64 characters |
| `PgbConfig.SectionKeysAreExact` | src/charm.py:980-1009 | the same for the whole section, with the wildcard as the one additional key |
| `PgbConfig.RoutedToItsOwn` | src/charm.py:980-1000 | without a clash every name leads to its own database on the primary, and every alias to that database on the replicas, or on the primary if there are none, always with the backend's auth user |
| `PgbConfig.SectionRoutes` | src/charm.py:980-1009 | the same in the whole section, to which the wildcard adds only its own key |
| `PgbConfig.OrderIndependentIffNoClash` | src/charm.py:980-1000 | the section is the same for every order of the map if and only if no requested name is an alias of a requested name |
| `PgbConfig.AdvertisedNamesAreServed` | src/relations/pgbouncer_provider.py:297-312 | the names in a client's URI, read-only URI and legacy standby string are keys of the rendered section |
| `PgbConfig.StarIsServedIffWildcard` | src/charm.py:982-1009 | a database called * is served exactly when the map has the wildcard entry; the key then leads to any database on the primary with the entry's auth database; without a backend nothing is served |
| `PgbConfig.RegenerateFromOldConfig` | src/charm.py:884-899 | the loop over an old section numbers its non-alias names from 1 |
| `PgbConfig.RecoveryIsExactIff` | src/charm.py:884-899 | recovery from the keys of a generated section returns exactly the requested names if and only if no requested name ends like an alias and the section has no wildcard |
| `PgbConfig.WildcardIsRecovered` | src/charm.py:893-898 | a concrete map whose wildcard is recovered as a name that nobody requested |
| `Barrier.LeaderUnit.OnDatabaseRequested` | src/relations/pgbouncer_provider.py:125-206 | the handler publishes the map, stops at the first peer out of step, and only then sets up the database, renders and shares |
| `Barrier.LeaderUnit.OnLegacyRelationJoined` | src/relations/db.py:242-306 | the legacy handler has the same barrier but shares the credentials before it asks the backend |
| `Barrier.LeaderUnit.OnRelationBroken` | src/relations/pgbouncer_provider.py:218-241 | the handler leaves the state that the next row describes, pop before use check and use check before removal |
| `Barrier.BrokenRelationLeaves` | src/relations/pgbouncer_provider.py:234-240 | with a backend the broken relation leaves the map, every other key reads as before, and its auth function goes if and only if no other entry has the name and the backend removes functions of such names |
| `Barrier.LeaderUnit.Synced` | src/relations/pgbouncer_provider.py:150-162 | the loop over the peers passes exactly when every peer acknowledges this map |
| `Barrier.LeaderUnit.InstallAuthFunction` | src/relations/pgbouncer_provider.py:184-185 | removing and installing again leaves the auth function installed in the database |
| `Barrier.LeaderUnit.RemoveAuthFunction` | src/relations/backend_database.py:505-531 | newer backends skip names of 50 characters and more |
| `Barrier.CredentialBarrier` | src/relations/pgbouncer_provider.py:130-206 | over all interleavings, a live relation with credentials means that every peer has rendered the map under which they were shared, for a new-style relation the leader too, and that map serves every name given to the client |
| `Barrier.PublishedMapIsExact` | src/relations/pgbouncer_provider.py:130-148 | the map that a request publishes lists the asking relation, every other relation whose database the leader knows and no other id, and the wildcard exactly when one of them is entitled to every database |
| `Barrier.SharesIffSynced` | src/relations/pgbouncer_provider.py:146-206 | credentials are shared, under the map just published, if and only if every peer acknowledges it and, for a new-style relation, the backend accepted the request; the auth function is installed and the configuration rendered only if it did; nothing else changes |
| `Barrier.PeerAcknowledges` | src/relations/peers.py:116-142 | a peer that reads a map renders it and acknowledges its digest |
| `Barrier.RequestCanBeServed` | src/relations/pgbouncer_provider.py:125-206 | from every state a live relation that asks for a database gets its credentials and its auth function after its map was published, all peers have read it and the request is repeated |
| `Barrier.RemovedStaysRemoved` | src/relations/pgbouncer_provider.py:234-236 | over all interleavings, once a relation broke with the backend ready, no map published from then on lists it |
| `Barrier.AuthFunctionStaysInstalled` | src/relations/pgbouncer_provider.py:223-241 | over all interleavings, every live relation with credentials finds the auth function in its database, also when several relations share it; a legacy one if its set-up worked |
| `Barrier.LegacySharesBeforeSetUp` | src/relations/db.py:262-304 | a legacy relation has credentials also when the set-up fails; it then has the auth function only if that was there before |
| `Barrier.LegacySharesInVain` | src/relations/db.py:262-304 | a run of two hooks that leaves a legacy relation with credentials and no auth function |
| `Barrier.StepKeepsInv` | src/relations/peers.py:116-142 | every step of leader, peers and environment keeps the invariant behind both theorems |
| `DataDiff.DiffIsExact` | lib/charms/data_platform_libs/v0/data_interfaces.py:565-607 | added, changed and deleted are disjoint, list exactly the differing keys and rebuild the new snapshot from the old |
| `DataDiff.DatabaseProvider.TakeDiff` | lib/charms/data_platform_libs/v0/data_interfaces.py:565-607 | the diff is taken against the saved snapshot, which becomes the new one |
| `DataDiff.DatabaseProvider.OnRelationChanged` | lib/charms/data_platform_libs/v0/data_interfaces.py:3553-3598 | a follower changes nothing, a hook that fails on an entity change saves nothing, and otherwise at most one event is emitted |
| `DataDiff.EventIsExact` | lib/charms/data_platform_libs/v0/data_interfaces.py:3553-3598 | only a leader that sees no change of the entity kind or of its roles records the new snapshot; it then requests a database that appeared, or the entity if its kind appeared too, or else announces new or changed permissions |
| `DataDiff.RequestedOncePerAppearance` | lib/charms/data_platform_libs/v0/data_interfaces.py:3553-3584 | over every history, each observed appearance of the database field yields exactly one request: an entity request if the entity kind appeared with it, a database request otherwise |
| `DataDiff.ActiveIff` | lib/charms/data_platform_libs/v0/data_interfaces.py:1983-2037 | over every history a status is active with its last text exactly when it was raised and neither resolved nor cleared since |
| `DataDiff.NoticesAreExact` | lib/charms/data_platform_libs/v0/data_interfaces.py:2329-2366 | an observation raises the codes that became active, with their texts, and resolves those that are active no more |
| `DataDiff.ReplayGivesActiveCodes` | lib/charms/data_platform_libs/v0/data_interfaces.py:2329-2366 | replaying raised and resolved events of any history gives exactly the codes active at the last observation, if every observation reaches the diff |
| `DataDiff.ObservationIsRightIff` | lib/charms/data_platform_libs/v0/data_interfaces.py:2329-2366 | from any state an observation leaves the replay right if and only if every code it does not notice was right before |
| `DataDiff.ReplayAgainstSnapshot` | lib/charms/data_platform_libs/v0/data_interfaces.py:3883-3899 | along any history with early returns the replay differs from the snapshot in exactly the codes last noticed by an observation that returned early |
| `DataDiff.HistoryIsRightIff` | lib/charms/data_platform_libs/v0/data_interfaces.py:3883-3899 | after the last observation of any history the replay is right if and only if that observation notices every code whose last notice before it returned early |
| `DataDiff.LaterOperationsDoNotMatter` | lib/charms/data_platform_libs/v0/data_interfaces.py:1983-2037 | what the provider does after the last observation changes neither the replay nor what was observed |
| `DataDiff.EarlyReturnKeepsStepIff` | lib/charms/data_platform_libs/v0/data_interfaces.py:3883-3899 | an observation that returns before the diff keeps events and snapshot in step exactly when no code appeared or disappeared |
| `DataDiff.EarlyReturnLosesResolution` | lib/charms/data_platform_libs/v0/data_interfaces.py:3883-3899 | a concrete history in which a resolved status stays raised for the requirer |
| `ProviderStore.ProviderData.constructor` | lib/charms/data_platform_libs/v0/data_interfaces.py:1149-1164 | a relation starts with an empty databag, no secrets and the requested secret fields |
| `ProviderStore.ProviderData.AddOrUpdateSecret` | lib/charms/data_platform_libs/v0/data_interfaces.py:1269-1336 | a group's secret is created and its URI published, or its content is merged; it fails exactly when the databag names a secret that cannot be found |
| `ProviderStore.ProviderData.StoreSecretFields` | lib/charms/data_platform_libs/v0/data_interfaces.py:1536-1577 | the loop over the groups, in any order, stores each field in its group's secret and refuses none |
| `ProviderStore.ProviderData.WriteFields` | lib/charms/data_platform_libs/v0/data_interfaces.py:1254-1267 | secret fields go to their groups' secrets and the rest to the databag, as specified |
| `ProviderStore.ProviderData.UpdateRelationData` | lib/charms/data_platform_libs/v0/data_interfaces.py:1898-1907 | before initialisation any field outside the early ones is refused and nothing is written |
| `ProviderStore.UpdateRefinesMap` | lib/charms/data_platform_libs/v0/data_interfaces.py:1254-1336 | an update acts as the update of one map: written fields have the new value, all others the old, and each lives in one place |
| `ProviderStore.UpdateKeepsSecrets` | lib/charms/data_platform_libs/v0/data_interfaces.py:1551-1577 | if secrets are wanted and none of them is in the databag, an update puts every wanted field in its group's secret and none in the databag, and the other fields in the databag |
| `ProviderStore.UpdateStaysOnDatabag` | lib/charms/data_platform_libs/v0/data_interfaces.py:1551-1557 | if no secrets are wanted, or one of them is in the databag already, every written field goes to the databag |
| `ProviderStore.SecretsStaySecret` | lib/charms/data_platform_libs/v0/data_interfaces.py:1551-1577 | over any run of updates and deletions of a new relation no field wanted as a secret is ever in the databag, and what the last update wrote to one is in its group's secret |
| `ProviderStore.GroupsAreFixed` | lib/charms/data_platform_libs/v0/data_interfaces.py:1128-1138 | which fields share a secret |
| `ProviderStore.RunRefinesMapIff` | lib/charms/data_platform_libs/v0/data_interfaces.py:1254-1336 | a run of updates and deletions follows one plain map, as fetching all fields shows it, with every field in one place, if and only if every deletion in it lists fields that are all outside the secrets or all in one of them |
| `ProviderStore.FetchReadsMap` | lib/charms/data_platform_libs/v0/data_interfaces.py:1595-1631 | a fetch returns exactly the wanted fields that have a value, with that value, and a fetch of everything all of them |
| `ProviderStore.ValidMeansOnePlace` | lib/charms/data_platform_libs/v0/data_interfaces.py:1554-1577 | in a valid store no field is both in the databag and in a secret, nor in another group's secret |
| `ProviderStore.ProviderData.DeleteFromSecret` | lib/charms/data_platform_libs/v0/data_interfaces.py:1339-1375 | a group's secret gives up the listed fields only if it holds every one, listed once, and disappears when nothing is left |
| `ProviderStore.ProviderData.DeleteGroup` | lib/charms/data_platform_libs/v0/data_interfaces.py:1559-1576 | one group's turn changes only that group's secret, and a refusal leaves its fields for the databag |
| `ProviderStore.ProviderData.ProcessForDelete` | lib/charms/data_platform_libs/v0/data_interfaces.py:1536-1577 | the loop over the groups, in any order, hands each the whole list and leaves the refused fields for the databag |
| `ProviderStore.ProviderData.DeleteRelationData` | lib/charms/data_platform_libs/v0/data_interfaces.py:1377-1385 | the new state is the specified deletion and stays valid |
| `ProviderStore.DeleteIsExactIff` | lib/charms/data_platform_libs/v0/data_interfaces.py:1339-1385 | a deletion removes exactly the listed fields if and only if no listed field is in a secret, or one secret holds the whole list and nothing is listed twice; otherwise every listed secret field stays and the other listed fields go |
| `ProviderStore.MixedDeletionKeepsSecret` | lib/charms/data_platform_libs/v0/data_interfaces.py:1339-1385 | a concrete store in which deleting a user name together with an ordinary field leaves the user name |
| `ProviderStore.DeleteKeepsValid` | lib/charms/data_platform_libs/v0/data_interfaces.py:1339-1385 | no deletion breaks the one-place invariant |
| `KeyNames.CleanedIsTheMiddle` | src/charm.py:764-765 | a name is cleaned by turning underscores into dashes and dropping exactly the dashes at both ends |
| `KeyNames.TranslateIsStableIff` | src/charm.py:759-765 | translation is idempotent on a key exactly when the key does not translate to ca |
| `PeerSecrets.PeerData.SetSecret` | src/charm.py:783-795 | an empty value removes; otherwise the old copy is popped, a current field's databag copy is dropped or the field becomes current, and the value is written |
| `PeerSecrets.PeerData.GetSecret` | src/charm.py:767-781 | the untranslated key is tried first, then the translated one if it is a current secret field |
| `PeerSecrets.PeerData.RemoveSecret` | src/charm.py:797-804 | a current field is overwritten with the deleted label, any other is removed from the databag |
| `PeerSecrets.PeerData.WriteField` | lib/charms/data_platform_libs/v0/data_interfaces.py:2856-2870 | a field goes to the secret, created if need be, unless the relation stays on the databag |
| `PeerSecrets.StepRefines` | src/charm.py:783-804 | one set, removal or new hook acts as one step on a plain map and keeps databag and secret apart |
| `PeerSecrets.RunRefines` | src/charm.py:783-804 | the same over any sequence of steps |
| `PeerSecrets.GetReadsPlain` | src/charm.py:767-781 | a get reads the plain map: the old copy if there is one, else the secret |
| `PeerSecrets.PlaceOfField` | lib/charms/data_platform_libs/v0/data_interfaces.py:2856-2900 | a leader whose databag still has a current secret reads, writes and deletes there only; otherwise what is a secret is written and marked as deleted in the secret, and the rest in the databag |
| `PeerSecrets.SetMovesTheLastCopy` | src/charm.py:783-795 | setting the only current secret that is still in the databag moves it to the secret and keeps the others |
| `PeerSecrets.ReadsLastWrite` | src/charm.py:767-804 | over any run a key reads its last value; a removed key is absent unless an old databag copy under its untranslated name was never overwritten; an untouched key keeps its value |
| `PeerSecrets.OtherSecretsHiddenIff` | lib/charms/data_platform_libs/v0/data_interfaces.py:1550-1555 | setting a key hides the other secrets exactly when the leader sets it and a databag copy is left under the key's translated name |
| `PeerSecrets.ValueOutlivesHookIff` | lib/charms/data_platform_libs/v0/data_interfaces.py:2493-2500 | a value that was set is read in the next hook exactly when no databag copy was left under its translated name, or a unit other than the leader set it and the next hook does not lead or the copy is equal |
| `PeerSecrets.OtherKeyReads` | src/charm.py:774-781 | setting one key changes what a key with another translated name reads only if that key is spelled like the first one's translated name |
| `PeerSecrets.OnlyCaIsReadTwice` | src/charm.py:759-765 | that happens only for the key ca and a key that translates to ca |
| `PeerSecrets.KeysAreProperIff` | src/charm.py:759-765 | which sets of keys may be used together: distinct translations, and not both ca and a key that translates to ca |
| `SecretCache.FirstKnownIsFirst` | lib/charms/data_platform_libs/v0/data_interfaces.py:846-856 | of the legacy labels the first that names a secret is used |
| `SecretCache.LocatedIsExact` | lib/charms/data_platform_libs/v0/data_interfaces.py:796-812 | a secret is found by its label, else by its first known legacy label, else by its URI; a URI that leads nowhere is an error |
| `SecretCache.CachedSecret.Meta` | lib/charms/data_platform_libs/v0/data_interfaces.py:797-812 | the secret is found by label, then by legacy label, then by URI, which attaches the label; a lookup changes no content |
| `SecretCache.CachedSecret.FindByOldLabel` | lib/charms/data_platform_libs/v0/data_interfaces.py:831-856 | the loop remembers the legacy label it found the secret by |
| `SecretCache.CachedSecret.AddSecret` | lib/charms/data_platform_libs/v0/data_interfaces.py:892-912 | a secret is created under the new label unless it has a URI already or the label is taken |
| `SecretCache.CachedSecret.GetContent` | lib/charms/data_platform_libs/v0/data_interfaces.py:914-929 | a read returns the stored content, leaves every stored content as it was and keeps cache and store coherent |
| `SecretCache.CachedSecret.MigrateToNewLabel` | lib/charms/data_platform_libs/v0/data_interfaces.py:857-886 | the full content moves to a new secret under the new label and the old secret stays |
| `SecretCache.CachedSecret.SetContent` | lib/charms/data_platform_libs/v0/data_interfaces.py:931-945 | after a write every reader sees the content; other secrets and a legacy original are untouched; cache and store stay coherent exactly when a secret with content is not overwritten with nothing |
| `SecretCache.CachedSecret.UpdateContent` | lib/charms/data_platform_libs/v0/data_interfaces.py:1314-1336 | overwriting fields merges into what was stored, wherever it was stored, and always stays coherent |
| `SecretCache.CachedSecret.Remove` | lib/charms/data_platform_libs/v0/data_interfaces.py:952-962 | the secret is gone from the store, and the object is coherent again exactly when no legacy label was in use |
| `SecretCache.Cache.Get` | lib/charms/data_platform_libs/v0/data_interfaces.py:973-983 | a cached secret is returned as it is, one found in the store is cached, and the cache stays valid if and only if what was found was not already cached under another label |
| `SecretCache.Cache.Add` | lib/charms/data_platform_libs/v0/data_interfaces.py:985-993 | a new label gets a new secret, a cached or taken label an error, and every cached secret stays coherent |
| `SecretCache.Cache.Update` | lib/charms/data_platform_libs/v0/data_interfaces.py:1314-1336 | overwriting fields of one cached secret keeps all cached secrets coherent and changes no other content |
| `SecretCache.Cache.Remove` | lib/charms/data_platform_libs/v0/data_interfaces.py:995-1005 | a secret, cached or found under its label, leaves the store and the cache, and nothing else changes; the cache stays valid if and only if what was found was not cached under another label |
| `ScrapeJobs.ExpandWildcardTargets` | lib/charms/prometheus_k8s/v0/prometheus_scrape.py:484-573 | the nested loops compute the specified expansion |
| `ScrapeJobs.ExpandJob` | lib/charms/prometheus_k8s/v0/prometheus_scrape.py:485-571 | one job's loop over its static configurations, host jobs first and the fixed job last |
| `ScrapeJobs.ExpandConfig` | lib/charms/prometheus_k8s/v0/prometheus_scrape.py:494-543 | one static configuration gives one job per unit for its wildcard targets, and its fixed targets |
| `ScrapeJobs.SplitTargets` | lib/charms/prometheus_k8s/v0/prometheus_scrape.py:499-515 | targets are split by whether they start with an asterisk |
| `ScrapeJobs.TargetsAreSorted` | lib/charms/prometheus_k8s/v0/prometheus_scrape.py:499-515 | sorting loses and adds no target; the wildcards are those that begin with an asterisk |
| `ScrapeJobs.ForHostSubstitutes` | lib/charms/prometheus_k8s/v0/prometheus_scrape.py:535-538 | on a host every asterisk of a target gives way to the host's name and nothing else changes |
| `ScrapeJobs.ForHostKeepsPort` | lib/charms/prometheus_k8s/v0/prometheus_scrape.py:535-538 | an asterisk followed by a port becomes the host name followed by that port |
| `ScrapeJobs.TargetsAreConserved` | lib/charms/prometheus_k8s/v0/prometheus_scrape.py:465-573 | as a multiset, the targets that come out are every fixed target once and every wildcard target once per host |
| `ScrapeJobs.ExpandedAreSettled` | lib/charms/prometheus_k8s/v0/prometheus_scrape.py:485-571 | every job that comes out has targets, no wildcard and a path, and is either the job for the fixed targets of one original job, each configuration with the labels and the fixed targets of one of its configurations, or a job for one host, with the labels of one configuration and its wildcard targets on that host |
| `ScrapeJobs.EveryConfigIsServed` | lib/charms/prometheus_k8s/v0/prometheus_scrape.py:485-571 | conversely every original configuration with fixed targets is in the job for them, and every one with wildcards has a job of its own for every host |
| `ScrapeJobs.ExpansionIsFinal` | lib/charms/prometheus_k8s/v0/prometheus_scrape.py:465-573 | expanding what came out, for any hosts, changes nothing unless a host is named like a wildcard |
| `ScrapeJobs.NumberIsTheLastPart` | lib/charms/prometheus_k8s/v0/prometheus_scrape.py:540-541 | the suffix of a job's name is the part of the unit's name after its last slash |
| `JobNames.DedupeJobNames` | lib/charms/prometheus_k8s/v0/prometheus_scrape.py:1193-1233 | the loops compute the specified list |
| `JobNames.RenameGroup` | lib/charms/prometheus_k8s/v0/prometheus_scrape.py:1210-1216 | the jobs of a group of two or more each get their own digest appended to their name |
| `JobNames.DropEqualJobs` | lib/charms/prometheus_k8s/v0/prometheus_scrape.py:1221-1231 | of jobs with one digest the first is kept |
| `JobNames.DedupedIsExact` | lib/charms/prometheus_k8s/v0/prometheus_scrape.py:1193-1233 | what comes out is, with no digest twice, every job whose name no other has as it is, and every other job with an underscore and its digest appended to its name |
| `JobNames.KeptInOrder` | lib/charms/prometheus_k8s/v0/prometheus_scrape.py:1221-1231 | the kept jobs are in the order of their first appearance, and a job is kept exactly when none before it has its digest |
| `JobNames.FinalIsInjectiveIff` | lib/charms/prometheus_k8s/v0/prometheus_scrape.py:1193-1233 | every distinct job keeps an output of its own unless it clashes with a job that has the same body |
| `JobNames.NamesDifferIff` | lib/charms/prometheus_k8s/v0/prometheus_scrape.py:1193-1233 | the names that come out are pairwise different if and only if no job that keeps its name carries the name given to a different job |
| `JobNames.AgainChangesNothingIff` | lib/charms/prometheus_k8s/v0/prometheus_scrape.py:893-921 | a second application changes nothing under exactly the same condition |
| `JobNames.Jobs` | lib/charms/prometheus_k8s/v0/prometheus_scrape.py:893-921 | the loop over the relations de-duplicates each accepted relation and then all of them |
| `JobNames.JobsKeepBodies` | lib/charms/prometheus_k8s/v0/prometheus_scrape.py:893-921 | a job's text but for its name is scraped if and only if an accepted relation asked for it, and no two equal jobs are scraped |
| `ConnectionString.ParseKvString` | lib/charms/pgbouncer_k8s/v0/pgb.py:46-61 | the loop computes the specified parse and stops at the first piece that is not one pair |
| `ConnectionString.ParsingFailsIff` | lib/charms/pgbouncer_k8s/v0/pgb.py:46-61 | parsing fails exactly when some piece is not one pair, and the first such piece is named |
| `ConnectionString.LastPairWins` | lib/charms/pgbouncer_k8s/v0/pgb.py:46-61 | a key has the value of the last pair that sets it |
| `ConnectionString.ParseOfPrintIff` | lib/charms/pgbouncer_k8s/v0/pgb.py:46-74 | parsing a printed dictionary returns it if and only if it is not empty and no key or value contains a space or an equals sign |
| `ConnectionString.PrintOfParseIff` | lib/charms/pgbouncer_k8s/v0/pgb.py:46-74 | printing a parsed text returns it if and only if the text repeats no key |

## Left out

- Rendering: a unit's configuration is the map or section it was rendered from. Templates, files, Pebble, sockets and lightkube are not modelled; a failing service or patch is a Boolean input of the handler.
- Hooks are atomic steps; a failing hook's databag writes are dropped, but what it already did in PostgreSQL is not modelled.
- The runs give every hook a process of its own with empty caches. In fact a deferred event is run again in the process of the next hook. `Upgrade.SecondCallLosesTopIff` says exactly what a second leader call in one process then does, and `K8sProgress.SecondCallStaysHealthy` that it does no harm while no unit has failed; nothing is claimed for such a process after a failure.
- The K8s runs assume that a refresh follows a successful pre-upgrade-check, that the StatefulSet replaces a pod once per refresh and only at or above the partition, that a new pod runs its upgrade-charm hook before any other, that the number of units is fixed, and that every restart of a recovering unit is harmless: its pod was replaced, or its checks fail, or it is the first or the last ordinal, or it is a middle unit whose partition patch fails and that is still on the stack then, unless nothing is. `K8sRun.RestartKeepsInvIff` shows that these restarts are exactly the ones that keep the invariant. Of the others, those that lower the partition are unsafe at once (`K8sRecovery.NextStateIsSafeIff`); that every one that loses its place can be continued to an unsafe run is not claimed. One or two units need no assumption on restarts (`K8sRun.SmallClustersAreSafe`). With three the safety claim is false without it: in `K8sRecovery.OneRestartIsEnough` one restart lowers the partition too far, and in `K8sRecovery.LostPlaceEndsUnsafe` only the restart that drops unit 1 from the stack is outside the assumption.
- The progress theorem says that a step is possible, not that it is taken. It counts on Juju to deliver an upgrade-changed hook to any unit at any time, also when nothing in the relation changed.
- Runs after a second refresh (a rollback) are not covered; stack repair is, on its own.
- The VM runs leave out failures, and with them unsupported versions and recovery; the grant that a single unit gets at once changes no shared data there.
- UpgradeUnit.DataUpgrade.PreUpgradeCheckAction: the stack of a VM charm, which each charm builds in its own way, is an input.
- Dependency records, version constraints, unit statuses, log messages, and what pebble-ready does for services, the admin user and monitoring passwords.
- The upgrade relation is assumed to be there; without it every handler returns or defers.
- The barrier runs have a fixed leader and a fixed set of peers, an injective digest of the map, a relation's database that never changes, a valid charm configuration, a present backend endpoint, and no departing unit. Client roles arrive already sanitised. Blocking on extensions and the deletion of users are left out.
- Barrier.LeaderUnit.OnDatabaseRequested: creating the user and the database are one Boolean outcome, and credentials are recorded as the map under which they were shared rather than as text.
- Barrier.LeaderUnit.OnRelationBroken: covers the leader that is not departing; followers do nothing, and the legacy handler's deferral is a broken event without a ready backend.
- The generated map and the request handler list different roles that are entitled to every database. Both lists are stated as they are; no rule ties them together.
- PgbConfig.RelationConfig: a host list and its port are one endpoint value; sorting and joining replica hosts is not modelled, and the read-only database list is left out.
- DataDiff.DatabaseProvider.OnRelationChanged: the bookkeeping of requested and provided secret fields is in the provider store, not here.
- Statuses are a code with a text; their schema and the order of events within one observation are left out.
- The provider store assumes a fixed, loaded list of requested secret fields, the leader as writer, non-empty values (Juju drops a field set to the empty string), and no field whose name starts with `secret-`, which names the URI of a secret.
- ProviderStore.ProviderData.AddOrUpdateSecret: granting the secret to the other application, and reading the URI of the extra group from the other side's databag, are left out.
- Peer secrets are modelled with secrets enabled, the peer relation present, a scope the unit may write, no static secret fields or groups (keys without an at sign), and without the legacy URI that an old charm left in the databag. An unknown scope, which raises, is left out.
- PeerSecrets.ReadsLastWrite: keys must be usable together and no databag copy may be under a translated name; `PeerSecrets.KeysAreProperIff`, `PeerSecrets.OtherSecretsHiddenIff` and `PeerSecrets.OtherKeyReads` say what happens otherwise. The docstrings do not mention either restriction.
- The secret cache assumes that the application owns and alone writes its secrets: no permission errors, no refresh flag, no grants. Juju is assumed to give a secret one label and to move it on a lookup by URI.
- SecretCache.CachedSecret.SetContent: a reader after the removal is described by the stored content; the stale cached content that the source keeps is stated as such.
- Topology labels and relabelling of expanded jobs, which add to a job and remove nothing.
- JobNames.DedupeJobNames: jobs are values, so one job object listed twice by reference, which would be renamed twice, is not modelled; a digest is a function of the job's JSON text without collisions among the jobs at hand, so that jobs that differ only in the order of their fields are two jobs; every job has a name, as the prefixing step before ensures.
- Validation of scrape jobs by the external tool is a function from jobs to accepted or not.
- ConnectionString.ParseKvString: the error raised for a piece without exactly one equals sign is a value.
- Kafka, OpenSearch, etcd and the other client classes repeat the same handlers; TLS, alerts, dashboards, logs and tests are left out.
