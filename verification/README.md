# Metio: a verified model of its state keeping

Metio runs Minecraft servers on cloud VMs. A controller keeps its data in a key/value store
that has no transactions, and an agent on each VM polls the controller. This project models
in Dafny how these three keep hand-maintained data consistent, and proves what they promise
each other:

| file | what it models |
|---|---|
| `state_keys.dfy` | the flat key space of the store |
| `backup_catalog.dfy`, `backup_catalog_laws.dfy` | backup records with two secondary indexes, every store call free to fail; whole runs |
| `backup_retention.dfy` | the retention sweep over catalog and bucket, in runs of creations, reports, destroys and sweeps |
| `backup_manifest.dfy` | the names of the manifest files |
| `manifest_relay.dfy` | the agent's relay of backup manifests: at least once to the controller, once in its catalog |
| `index_updates.dfy` | additions to one index document that overlap |
| `whitelist_store.dfy` | whitelist records and index as an insertion-ordered map |
| `whitelist_sync.dfy` | the agent's reconciliation of the Minecraft whitelist |
| `command_protocol.dfy` | commands and acknowledgements over one shared status document |
| `provisioning.dfy` | the provisioning operations, their step lists and their progress |
| `server_configs.dfy` | the record and index of server configurations, as a destroy uses them |
| `goroutine_executor.dfy`, `cloud_tasks.dfy` | the two executors: exclusion in process, and once out of at-least-once delivery |
| `task_handler.dfy` | a delivery from the gate to the end of its operation |
| `scheduled_shutdown.dfy` | the shutdown warnings |
| `search_cache.dfy` | the one-slot cache in front of Modrinth |
| `cloud_config.dfy` | template rendering by sequential replacement in random map order |
| `common.dfy` | options, duplicate-free lists, bulk reads |

`dafny verify dfyconfig.toml` checks the whole project.

Classes carry the fields that the program updates in place. Their methods follow the program's
branches, store call by store call. A call into code outside the model (store, Pulumi, GCP,
RCON, the network, the clock) is a nondeterministic choice: it succeeds or it fails, and a failed
call has no effect. Ghost counters `faults` record the failures, so that contracts can say both
what holds whatever fails and what must happen when nothing does, and ghost histories (`log`,
`tried`, `deeds`) record what was asked of others, so that they can say what a success means.
Each method is proved against a specification on values (`UpsertOutcome`, `DeleteOutcome`, `Next`,
`Apply`, ...), and the lemmas are about that specification. Whole runs are sequences of such
outcomes, so that a theorem about runs covers every order of operations and every pattern of
failures its run predicate admits.

## Assumptions

- JSON round-trips. A bulk read answers in the order of its keys.
- Command protocol: in whole runs every read-then-write of the status document (a trigger, an agent
  tick, a status update, an event handler) is one atomic step. `CommandProtocol.StaleWriteSoundIff`
  says exactly which steps may fall between a read and a write of the agent, or of a handler that
  writes back the command and answer it has read (scheduling and cancelling a shutdown);
  `SplitTriggerIsSound` says that triggers may be split. That an acknowledgement speaks of the
  waiter's own command is promised for an instance on which others trigger nothing that can pass
  for it (`Instance.Answers`), which `AnswersAreMineIff` shows to be the exact condition. That an
  operation saves before it deploys or restores needs no condition (`RunRecreateUpdate`, `RunRestore`).
- Operations on the catalog, on a whitelist and on the server configurations do not overlap: the
  store offers no transactions, and an index is read and then written. `NothingLostIffUndisturbed` says
  exactly which overlapping additions to an index lose nothing.
- Deletion retried until nil: reports of that server in between complete, and no single item of a
  bulk read fails in the deletions (`DeleteEmptiesIffReached` says what such errors cost); whole calls
  of theirs may fail anywhere, and stampings of the server too.
- Retention: reports and destroys are free of faults; sweeps read their lists without item errors,
  and any whole call of theirs may fail; server ids are fresh, not empty, and hold no '/'.
- Cloud Tasks: operation ids are unique, deliveries of one operation do not overlap, status writes
  of running bodies succeed, and a body that does not die ends with a terminal status. The gate and
  the body's own reading of the status are one step.
- The backup hook uses no manifest name for two contents (see below). Nothing on the way to the
  controller's own checks (decoding, authentication, a proxy) answers 400 to a report the checks
  would accept. While an agent relays, records are not deleted from the catalog.

## Where the code does less than its comments or names suggest

- `internal/services/modrinth.go:100-103` says that a query is never served another query's
  results. `BarCollides` and `CollisionIsUnsound` give two requests for which it is; `SoundIffInjective`
  says exactly when it cannot happen.
- A cancel gives up exclusion. In process a server is safe again exactly when no goroutine has
  outlived its entry (`ExclusiveIffBalanced`, with `CancelLosesExclusion` as its instance). With tasks
  the cancelled body's late write can shut its successor's gate for good: an operation can still be
  started exactly if its gate is open now (`FirstStartIffGateOpen`, `LateWriteStarvesSuccessor`).
- A body that dies is run again by the next delivery, as often as it dies (`OnceMoreThanDeaths`,
  `DeadBodyRunsAgain`).
- A deletion that stops after a record and before the server's index, and is then retried, leaves the
  record's key in the global index until the snapshot is reported again (`DanglingStays`,
  `RetryLeavesDanglingKey`); `CleanDeleteForgetsIff` says exactly which deletions clean the index.
- A destroy whose stamping stopped strictly in between lets unstamped records be swept with their
  expired neighbours (`HaltedStampingUniformIff`, `UnstampedRecordIsSwept`); `OnlyExpiredIffUniform` says
  exactly when a sweep takes only expired backups.
- A destroy that fails between the record and the index entry of the configuration leaves the backups
  unstamped (`EndDestroy`, `HalfDestroyedIsOrphan`), and none of them is swept until the server is
  destroyed again; the next sweep after the retention time in which nothing fails then takes them all
  (`OrphanRetained`, `OrphanUntilDestroyed`). Only a destroy already under way can do that: without a
  configuration a request for one and the task handler both answer 404
  (`internal/handlers/servers/crud.go:477-481`, `internal/handlers/tasks/handler.go:69-74`).
- The progress of a successful in-place update is 0, not 100, since it has no steps
  (`RunInPlaceUpdate`). The Cloud Tasks handler passes update type 0 for every update
  (`internal/handlers/tasks/handler.go:86`), so that an update delivered that way is performed as asked
  exactly if the kind asked for is the one in place (`TaskHandler.Handler.Handle`).
- A resize that has persisted COMPLETED can still end FAILED, and its progress falls from 100 to
  66; a create whose configuration cannot be stamped falls from 100 to 50. `ProgressFallsIff` says
  exactly when an error lowers the progress, and `ExecuteOperation` that, for a status not already
  COMPLETED when the run starts, these are the only two runs in which it does.
- A manifest that cannot be read once, for whatever reason, is quarantined like an unparsable one
  (`cmd/machine-agent/backups.go:59-65`) and never reported, although the relay is described as never
  losing a record; `ProcessBackupManifests` says that this is the only way to lose a deliverable one.
- `internal/backupmanifest/manifest.go:48-51` promises distinct file names; two manifests share one
  exactly if they fall into the same second (`SameNameIffSameSecond`), and the later one replaces an
  earlier one that is still queued. `Save` says exactly when that loses a manifest, `TwoSavesKeptIff`
  for two in a row.
- A clock that is set back after the shutdown was started repeats warnings and can bring the 5-minute
  one after the 1-minute one. `WarnsIffDue` says exactly which tick warns, `WarnedTwiceIff` and
  `FiveAfterOneIff` when a stretch is warned twice or out of order.

## Model

| member | source | states |
|---|---|---|
| `StateKeys.RoundTripIffPlain` | internal/db/dapr.go:553-555 | a rendered state-store key can be read back exactly when, for the two kinds that carry a second part (whitelist entry, backup record), the owner holds no ':' |
| `StateKeys.RenderInjective` | internal/db/dapr.go:94-145 | keys of different documents never coincide on that domain, whatever kind they are |
| `StateKeys.SuffixRecoversIds` | internal/db/dapr.go:94-97 | what follows the first ':' of a server-config key is the server id, of a backup-record key server and snapshot, and of a whitelist-entry key instance and player id, in this order |
| `StateKeys.WordsAsWritten` | internal/db/dapr.go:94-145 | the leading parts of the thirteen kinds of key, as the source writes them |
| `StateKeys.ColonCollides` | internal/db/dapr.go:553-559 | with ':' in a server id two different backups share one key |
| `StateKeys.UniqueIffUndivided` | internal/db/dapr.go:94-145 | no other key of any kind is rendered like a given one exactly when, for the two kinds with a second part, neither part holds ':' |
| `Common.Contains` | internal/db/dapr.go:585-591 | the search loops over index slices answer membership |
| `Common.FetchIsSound` | internal/db/dapr.go:681-700 | a bulk read yields only values stored under its keys, and every stored key whose item did not fail |
| `Common.FetchTotal` | internal/db/dapr.go:681-700 | without item errors a bulk read of stored keys yields each of them once, in order |
| `Common.FetchDependsOnKeys` | internal/db/dapr.go:681-700 | a bulk read depends on nothing but the documents under its keys |
| `IndexUpdates.NothingLostIffUndisturbed` | internal/db/dapr.go:605-633 | of any number of overlapping additions of new ids to one index document, each reading it and then writing it back, nothing is lost exactly if every one of them writes to the document that it had read |
| `IndexUpdates.OverlapLosesFirst` | internal/db/dapr.go:605-633 | of two additions that both read before either writes, the first is lost although both succeed |
| `BackupCatalog.DaprDB.UpsertBackup` | internal/db/dapr.go:561-636 | on nil the record is stored and its key is in both indexes, appended only if absent; on an error exactly the first, the first two or none of the three writes have happened, and only because a store call failed |
| `BackupCatalog.DaprDB.GetBulk` | internal/db/dapr.go:51-65 | answers key by key, skipping missing and failed items; without item errors nothing stored is skipped |
| `BackupCatalog.DaprDB.ListBackupsByServer` | internal/db/dapr.go:656-703 | the stored backups the per-server index names, in index order, ids rewritten to server:snapshot |
| `BackupCatalog.DaprDB.ListBackups` | internal/db/dapr.go:705-749 | the stored backups the global index names, in index order, an empty id filled in |
| `BackupCatalog.DaprDB.MarkServerBackupsDeleted` | internal/db/dapr.go:760-790 | stamps a prefix of the listed records, all of them on nil; indexes untouched; fails only if a store call failed |
| `BackupCatalog.DaprDB.DeleteServerBackups` | internal/db/dapr.go:792-851 | which documents are gone at every possible point of failure; on nil the listed records, the per-server index and the listed keys of the global index; fails only if a store call failed |
| `BackupCatalog.DaprDB.DeleteRecords` | internal/db/dapr.go:803-807 | exactly the records before the first failing call are gone |
| `BackupCatalog.DaprDB.ForgetKeys` | internal/db/dapr.go:814-843 | the global index loses exactly the given keys, or nothing |
| `BackupCatalogLaws.ListedIsRecord` | internal/db/dapr.go:656-703 | every backup listed for a server is the record of that server and snapshot as it is stored, but for its id, which is server:snapshot |
| `BackupCatalogLaws.RecordIsListed` | internal/db/dapr.go:656-703 | every record the index names is listed when no item fails |
| `BackupCatalogLaws.StampAllEffect` | internal/db/dapr.go:760-790 | stamping changes exactly the listed records and leaves the set of keys alone |
| `BackupCatalogLaws.MarkEffect` | internal/db/dapr.go:760-790 | however far stamping gets, indexes and keys stay, other servers' records are untouched, and a touched record has the two times asked for, the configuration asked for if there is one and its old one otherwise, the id server:snapshot and all other fields unchanged |
| `BackupCatalogLaws.UpsertKeepsNested` | internal/db/dapr.go:561-636 | global index within per-server indexes within records, all duplicate-free, survives a report that stops at any store call |
| `BackupCatalogLaws.AcknowledgedIsPresent` | internal/db/dapr.go:561-636 | from any state at all, an upsert that returns nil has its pair in all three places, so a retry repairs what a failure left |
| `BackupCatalogLaws.FaultyRunNested` | internal/db/dapr.go:561-636 | the nesting holds after every operation of every run of reports and stampings, with every call free to fail |
| `BackupCatalogLaws.UpsertAligned` | internal/db/dapr.go:561-636 | a successful upsert keeps records and indexes denoting one duplicate-free set of pairs and is the plain map update |
| `BackupCatalogLaws.MarkAligned` | internal/db/dapr.go:760-790 | a successful stamping keeps that agreement and stamps exactly the server's entries of the plain map |
| `BackupCatalogLaws.DeleteAligned` | internal/db/dapr.go:792-851 | a successful deletion keeps that agreement and removes exactly the server's entries of the plain map |
| `BackupCatalogLaws.WithoutEffect` | internal/db/dapr.go:826-835 | filtering the global index removes exactly the given keys, keeps it duplicate-free and keeps other servers' order |
| `BackupCatalogLaws.SuccessfulRunIsPlain` | internal/db/dapr.go:561-851 | any run of successful upserts, stampings and deletions refines a plain map, records and both indexes agreeing throughout |
| `BackupCatalogLaws.ListsEveryRecordOnce` | internal/db/dapr.go:705-749 | in an aligned catalog ListBackups returns every record exactly once, in index order |
| `BackupCatalogLaws.ListsAgree` | internal/db/dapr.go:656-749 | the per-server list is the global list restricted to that server, in the same order; the two are identical exactly when the stored ids are canonical |
| `BackupCatalogLaws.DeleteTouchesOneServer` | internal/db/dapr.go:792-851 | wherever a deletion stops and whatever items fail, it only removes, and nothing of another server changes |
| `BackupCatalogLaws.OtherServersUnchanged` | internal/db/dapr.go:792-851 | at no point of a deletion does either list change for another server |
| `BackupCatalogLaws.DeleteKeepsCovered` | internal/db/dapr.go:792-851 | an interrupted deletion leaves the remaining records findable through the index, so that a retry still reaches them |
| `BackupCatalogLaws.DeletionRunCovered` | internal/db/dapr.go:792-851 | what is left stays findable through the index through any number of failing deletions, amid arbitrary operations on other servers, stampings of this one wherever they fail, and reports of it that complete |
| `BackupCatalogLaws.ListedIffReached` | internal/db/dapr.go:656-703 | a deletion finds exactly the stored records that the server's index names at a position whose item did not fail |
| `BackupCatalogLaws.DeleteEmptiesIffReached` | internal/db/dapr.go:792-851 | whatever items fail: a deletion that returns nil leaves no record of the server exactly when it reached them all, and no key of it in the global index exactly when it reached the record of every key there |
| `BackupCatalogLaws.CleanDeleteEmptiesIffCovered` | internal/db/dapr.go:792-851 | read without item errors, a deletion that returns nil leaves no record of the server exactly when its index covered them all |
| `BackupCatalogLaws.CleanDeleteForgetsIff` | internal/db/dapr.go:814-843 | read without item errors, no key of the server is left in the global index exactly when every key of it there still had its record and its place in the server's index |
| `BackupCatalogLaws.DanglingStays` | internal/db/dapr.go:792-851 | a key without a record stays in the global index through any run, whatever fails, until its snapshot is reported again |
| `BackupCatalogLaws.RetriedDeletionEmptiesBothLists` | internal/db/dapr.go:792-851 | deletion retried until nil, with all of that in between: neither list returns a backup of the server |
| `BackupCatalogLaws.ItemErrorLeavesRecord` | internal/db/dapr.go:687-690 | one failed bulk item, and a deletion returning nil leaves a record in the global list that the server's own list has lost |
| `BackupCatalogLaws.RetryLeavesDanglingKey` | internal/db/dapr.go:792-851 | such a key arises when a deletion stops between a record and the server's index and is retried; a later half-done report then shows in one list only |
| `BackupRetention.EligibleIff` | internal/services/backup_cleanup.go:44-60 | a server is swept exactly when it has a stamped backup and no stamped backup of it is still retained |
| `BackupRetention.EligibleByFields` | internal/services/backup_cleanup.go:44-60 | the same in terms of the fields: a backup with a server id, a deletion and a retention time, and no such backup of the server whose retention time is still to come |
| `BackupRetention.Bucket.DeletePrefix` | internal/services/storage_adapter.go:45-64 | only objects under the prefix go, all of them on success, failure only after a failed call; the count is what went less what others took meanwhile |
| `BackupRetention.BackupCleanupService.GroupDeletions` | internal/services/backup_cleanup.go:44-60 | the grouping loop computes, per server with stamped backups, whether all stamped ones are expired |
| `BackupRetention.BackupCleanupService.SweepServer` | internal/services/backup_cleanup.go:70-86 | one server, wherever it fails: nothing outside the eligible servers changes, on success, if its index covered its records, nothing of this one is left; no more objects are counted than went, and exactly those unless a bucket call failed or others took some |
| `BackupRetention.BackupCleanupService.SweepServers` | internal/services/backup_cleanup.go:64-87 | the same over the map in any order; failed counts the failed calls, cleaned the other eligible servers, objectsDeleted the objects |
| `BackupRetention.BackupCleanupService.RunSweep` | internal/services/backup_cleanup.go:33-90 | only eligible servers lose objects or records; all four result counters; without any fault every eligible server whose index covers its records is emptied of records and objects |
| `BackupRetention.PrefixesDisjoint` | internal/services/backup_cleanup.go:70-70 | no object lies under the prefixes of two servers whose ids hold no '/' |
| `BackupRetention.PrefixesMeetIff` | internal/services/backup_cleanup.go:70-70 | two servers have an object name in common under their prefixes exactly when one prefix continues the other |
| `BackupRetention.UnderIff` | internal/services/backup_cleanup.go:70-70 | the objects under a prefix are exactly those named servers/<id>/restic/<rest> |
| `BackupRetention.GlobalListShows` | internal/db/dapr.go:705-749 | a backup of the global list is the record of its server and snapshot as it is stored, an empty id filled in as server:snapshot |
| `BackupRetention.SlashNestsPrefixes` | internal/services/backup_cleanup.go:70-70 | with '/' in an id the prefixes nest |
| `BackupRetention.ReportKeepsInv` | internal/handlers/servers/backup_catalog.go:96-182 | a report stores an unstamped, findable record, and only for a configured server |
| `BackupRetention.DestroyKeepsInv` | internal/services/provisioning.go:441-459 | a destroy stamps every record of the server |
| `BackupRetention.StepKeepsInv` | internal/services/provisioning.go:409-462 | in fault-free runs configured servers have unstamped records, all others stamped ones, all findable through both indexes |
| `BackupRetention.EligibleIsExpired` | internal/services/backup_cleanup.go:41-68 | under that invariant an eligible server has lost its configuration and every record of it is past its retention |
| `BackupRetention.EligibleIffExpired` | internal/services/backup_cleanup.go:41-68 | under that invariant the eligible servers are exactly the expired ones that have left a record |
| `BackupRetention.ExpiredIsSwept` | internal/services/backup_cleanup.go:64-87 | and a sweep in which nothing fails takes every record of every expired server, and with a record all its objects |
| `BackupRetention.SweepIsSafe` | internal/services/backup_cleanup.go:33-90 | a sweep takes records and objects only of such servers, nothing under another server's prefix, and neither list changes for others |
| `BackupRetention.EverySweepIsSafe` | internal/services/backup_cleanup.go:33-90 | this holds of every sweep of every run |
| `BackupRetention.SweepsFromStart` | internal/services/backup_cleanup.go:33-90 | in particular of every run from the empty store |
| `BackupRetention.CleanSweepIsStep` | internal/services/backup_cleanup.go:33-90 | a sweep that read its lists without item errors, whatever calls failed, is the step Sweep of a run |
| `BackupRetention.OnlyExpiredIffUniform` | internal/services/backup_cleanup.go:44-68 | at every time a sweep takes only stamped and expired backups of a server exactly when its listed backups are stamped all or none |
| `BackupRetention.SweepsAreFairIffUniform` | internal/services/backup_cleanup.go:44-68 | the same for all servers at once |
| `BackupRetention.StampedPartEffect` | internal/db/dapr.go:766-783 | a stamping that stopped after n records is an outcome of MarkServerBackupsDeleted and has stamped exactly the first n keys of the index |
| `BackupRetention.HaltedStampingUniformIff` | internal/db/dapr.go:766-783 | it leaves the server's backups stamped all or none exactly when it stopped before the first or after the last |
| `BackupRetention.TwoReports` | internal/handlers/servers/backup_catalog.go:96-182 | two reports of one server lead to a state in which a stamping can stop in between |
| `BackupRetention.UnstampedRecordIsSwept` | internal/services/provisioning.go:456-458 | otherwise, once the stamp has expired, every sweep in which nothing fails is a step of a run that takes a record which was never stamped |
| `BackupRetention.OrphanRetained` | internal/services/provisioning.go:441-459 | a server whose configuration went while its backups stayed unstamped keeps every record and object through every run that does not destroy it again |
| `BackupRetention.DestroyedIsSwept` | internal/services/provisioning.go:441-459 | a destroy without a fault stamps every record that both indexes name, and the first sweep after the retention time in which nothing fails takes them all |
| `BackupRetention.OrphanUntilDestroyed` | internal/services/provisioning.go:441-459 | so what a halfway destroy left is kept through every run up to the next destroy of the server, and goes with the sweep after it |
| `BackupManifest.SameNameIffSameSecond` | internal/backupmanifest/manifest.go:48-58 | two backups get the same file name exactly when their times fall into the same UTC second |
| `BackupManifest.NameReadsBack` | internal/backupmanifest/manifest.go:48-58 | the name is "manifest-", the year, month and day, "T", hour, minute and second, and "Z.json": read at their places, the digits give these numbers back |
| `BackupManifest.ScanFindsManifests` | internal/backupmanifest/manifest.go:22-25 | a scan of the directory finds every manifest, and no file that was set aside or is still being written; files set aside under different names stay apart |
| `ManifestRelay.MachineAgent.Save` | internal/backupmanifest/manifest.go:62-86 | under whatever name, a write loses no manifest exactly if it fails, or the name is not queued, holds the same content, or content that was acknowledged or set aside |
| `ManifestRelay.TwoSavesKeptIff` | internal/backupmanifest/manifest.go:62-86 | two manifests written one after the other are both kept exactly if their names differ or they are the same |
| `ManifestRelay.MachineAgent.HandleBackupReport` | internal/handlers/servers/backup_catalog.go:96-182 | an acknowledgement means that the record of this server and snapshot is in all three places, with the id server:snapshot, the prefix, status and figures of the report, a configuration and no stamp; a 400 means an unacceptable report, any other answer leaves a possible upsert outcome; without faults exactly the reports with the prefix of their server and a known status are acknowledged |
| `ManifestRelay.MachineAgent.SubmitBackupReport` | cmd/machine-agent/backups.go:84-84 | the same across a network that may lose request or answer |
| `ManifestRelay.ConservedOnQuarantine` | internal/backupmanifest/manifest.go:95-106 | setting a file aside loses nothing exactly if what was there under its new name is accounted for elsewhere |
| `ManifestRelay.MachineAgent.Quarantine` | cmd/machine-agent/backups.go:120-124 | a file set aside for cause moves to quarantine with its content, or stays queued exactly if the rename fails; with one content per name nothing is lost |
| `ManifestRelay.MachineAgent.Acknowledge` | cmd/machine-agent/backups.go:86-96 | an acknowledged file goes, or stays queued for a harmless redelivery if its removal fails |
| `ManifestRelay.MachineAgent.Load` | cmd/machine-agent/backups.go:58-72 | passes on exactly the manifests it could read that have a server id, a snapshot id and a prefix; every other file is quarantined unless the rename fails; failed reads and renames of this file are counted |
| `ManifestRelay.MachineAgent.Relay` | cmd/machine-agent/backups.go:84-107 | a file leaves the queue only after its report was acknowledged or permanently rejected; a deliverable one is never set aside here |
| `ManifestRelay.MachineAgent.ProcessFile` | cmd/machine-agent/backups.go:58-108 | one file: only this one may leave the queue; a deliverable one goes to quarantine exactly if it could not be read and the rename succeeded; without faults it is settled |
| `ManifestRelay.MachineAgent.OthersAct` | cmd/machine-agent/backups.go:24-31 | arrivals of manifests, and other agents' reports and stampings, in any number and order and each failing anywhere, lose nothing and take nothing out of the queue |
| `ManifestRelay.MachineAgent.NextFile` | cmd/machine-agent/backups.go:58-108 | the next file of a tick under way: what is left of the tick, and everything said of the files it has dealt with, is kept |
| `ManifestRelay.MachineAgent.ProcessBackupManifests` | cmd/machine-agent/backups.go:32-115 | one tick, with arrivals and with reports and stampings of others between its files: every manifest stays queued, quarantined or acknowledged, with its content; a deliverable one not set aside before is so exactly if a read of it failed and no rename of it did; without faults nothing is queued but what has arrived, and exactly what could be delivered was acknowledged |
| `ManifestRelay.MachineAgent.Run` | cmd/machine-agent/backups.go:32-115 | conservation over any run of arrivals, ticks, other agents' reports and stampings, each failing anywhere, of a hook that uses no name for two contents: every manifest written is accounted for, without faults every one that arrived was written, every acknowledged one is in the catalog, and nothing deliverable is quarantined unless a read failed |
| `ManifestRelay.MachineAgent.QuarantinedForCause` | cmd/machine-agent/backups.go:59-72 | a quarantined manifest that could have been delivered is one that could not be read |
| `ManifestRelay.MachineAgent.AcknowledgedListedOnce` | cmd/machine-agent/backups.go:24-31 | however often it was delivered, the server and snapshot of an acknowledged manifest are listed exactly once |
| `ManifestRelay.PresentIsListedOnce` | internal/db/dapr.go:705-749 | a pair present in a nested catalog is shown exactly once |
| `ManifestRelay.CatalogKeeps` | internal/handlers/servers/backup_catalog.go:156-182 | a report, however it ends, loses nothing of what was acknowledged before |
| `ManifestRelay.OthersKeepCatalogued` | internal/handlers/servers/backup_catalog.go:96-182 | reports and stampings of others, however they end, lose nothing of what was acknowledged |
| `ManifestRelay.AdvancedTwice` | cmd/machine-agent/backups.go:32-115 | that what was queued stays accounted for composes over ticks |
| `WhitelistStore.DaprDB.GetWhitelistEntries` | internal/db/dapr.go:205-241 | the stored entries the index names, in index order, failed items skipped |
| `WhitelistStore.DaprDB.AddWhitelistEntry` | internal/db/dapr.go:243-268 | the entry is stored, its id appended to the index only if absent; on an error, which a store call caused, at most the entry was written |
| `WhitelistStore.DaprDB.RemoveWhitelistEntry` | internal/db/dapr.go:270-290 | the entry is deleted and its id filtered out of the index |
| `WhitelistStore.DaprDB.SetWhitelistEntries` | internal/db/dapr.go:292-320 | old entries are deleted as far as that succeeds, the new ones stored in order, the index replaced; and which prefix is stored on an error; without faults all old entries are deleted |
| `WhitelistStore.AddRefines` | internal/db/dapr.go:243-268 | adding is adding to an insertion-ordered map: replacing in place or appending; other instances untouched |
| `WhitelistStore.RemoveRefines` | internal/db/dapr.go:270-290 | removing is removing from that map; the record is gone |
| `WhitelistStore.SetReadsBack` | internal/db/dapr.go:292-320 | a replaced list reads back as given exactly when no player comes with two different entries, and of the players that are no longer in it no record is left whose deletion succeeded |
| `WhitelistStore.SetRefines` | internal/db/dapr.go:292-320 | with distinct ids it replaces the map, whatever became of the old entries |
| `WhitelistStore.OthersRead` | internal/db/dapr.go:205-241 | what other instances read does not change |
| `WhitelistStore.RunRefinesOrderedMap` | internal/db/dapr.go:205-320 | any sequence of successful operations: every instance reads as its insertion-ordered map |
| `WhitelistSync.AddMissing` | cmd/machine-agent/main.go:424-432 | in any map order an add is issued for exactly the missing players; the list becomes what the successful adds make of it, which is the wanted one if none failed and every name stands for its own id |
| `WhitelistSync.RemoveSurplus` | cmd/machine-agent/main.go:434-442 | a removal is issued for exactly the surplus players; each successful one takes everyone of that name; without failures all of them go |
| `WhitelistSync.ByIdIsLastName` | cmd/machine-agent/main.go:414-417 | what is wanted: the player ids of the entries, each with the user name of its last entry |
| `WhitelistSync.SyncWhitelist` | cmd/machine-agent/main.go:398-454 | in terms of the entries, for any map order and any failing commands: adds are issued exactly for the players with an entry who are not on the list, under the user name of their last entry, removals exactly for those on the list without one, under their name there; then the whitelist and the enabled flag; without failures, names standing for their own ids, the whitelist Synced(); untouched if either list cannot be read |
| `WhitelistSync.SyncedIffNoClash` | cmd/machine-agent/main.go:398-454 | the Minecraft ids equal the controller's exactly when no surplus player shares a name with a wanted one |
| `WhitelistSync.SecondSyncIdleIffNoClash` | cmd/machine-agent/main.go:398-454 | a second sync issues nothing under exactly the same condition |
| `WhitelistSync.UniqueSurplusNamesSuffice` | cmd/machine-agent/main.go:398-454 | surplus names that occur nowhere else meet it |
| `ScheduledShutdown.MachineAgent.CheckScheduledShutdown` | cmd/machine-agent/main.go:525-572 | one tick changes the two variables, and acts, as the transition function says, with the message of its warning or the calls of a shutdown in order |
| `ScheduledShutdown.MachineAgent.InitiateScheduledShutdown` | cmd/machine-agent/main.go:638-678 | message, save and schedule come first and stop nothing; the schedule is cleared unless reading it failed, the instance stopped unless finding project or zone failed, and the warnings are forgotten; it succeeds exactly if project, zone and stop did; without failures all seven calls are made in order |
| `ScheduledShutdown.OneMinuteWarnings` | cmd/machine-agent/main.go:555-561 | from any state, a stretch that sees one shutdown time gets exactly one 1-minute warning if it is due and a tick falls in its window, else none |
| `ScheduledShutdown.FiveMinuteWarnings` | cmd/machine-agent/main.go:562-569 | the same for the 5-minute warning |
| `ScheduledShutdown.WarningOrder` | cmd/machine-agent/main.go:555-569 | the 5-minute warning never follows the 1-minute one |
| `ScheduledShutdown.ShutdownWhenReached` | cmd/machine-agent/main.go:548-553 | shutdown starts exactly on the ticks that find the time reached |
| `ScheduledShutdown.RunSplit` | cmd/machine-agent/main.go:525-572 | a run is the run of its first part continued from where that ended |
| `ScheduledShutdown.RememberedIsLastRead` | cmd/machine-agent/main.go:525-572 | the remembered time is the last one read, or none |
| `ScheduledShutdown.EveryMaximalStretch` | cmd/machine-agent/main.go:525-572 | all of the above for every maximal stretch of a whole run from the start |
| `ScheduledShutdown.OneMinuteRepeats` | cmd/machine-agent/main.go:525-572 | whatever the clock does, from any state: when a stretch is given the 1-minute warning at all, and when twice |
| `ScheduledShutdown.WarnedTwiceIff` | cmd/machine-agent/main.go:525-572 | in a whole run a stretch is given it more than once exactly if a tick in the window follows one that found the time reached, which follows one in the window; a clock running forward excludes that |
| `ScheduledShutdown.WarnsIffDue` | cmd/machine-agent/main.go:555-569 | whatever the clock does, from any state: a tick gives a warning exactly if it falls in its window and every earlier tick that could have given it has been followed by one that found the time reached |
| `ScheduledShutdown.FiveAfterOneIff` | cmd/machine-agent/main.go:525-572 | in a whole run a stretch gets the 5-minute warning after the 1-minute one exactly if a tick in the 1-minute window is followed by one that found the time reached and then, with none in that window since, by one in the 5-minute window |
| `ScheduledShutdown.ClockSetBackWarnsTwice` | cmd/machine-agent/main.go:525-572 | the shortest such stretches: a clock set back after the shutdown was started repeats the 1-minute warning, or brings the 5-minute one after it |
| `CommandProtocol.TickKeepsInv` | cmd/machine-agent/main.go:596-636 | an agent tick writes "completed" only after it ran the pending command, with its arguments, successfully |
| `CommandProtocol.StepKeepsInv` | internal/services/update_operations.go:73-111 | triggers, ticks, status updates and event handlers keep: a pending command is the latest triggered one, and "completed" means it ran |
| `CommandProtocol.RunKeepsInv` | internal/services/update_operations.go:73-144 | the same over every run |
| `CommandProtocol.CompletedIsSound` | internal/services/update_operations.go:113-144 | in every history, whoever reads "completed" after a trigger can rely on the latest triggered command having run exactly as asked since then |
| `CommandProtocol.StaleWriteRevivesCompleted` | cmd/machine-agent/main.go:203-219 | with split read and write, a stale agent update brings back an old "completed" |
| `CommandProtocol.StaleWriteSoundIff` | cmd/machine-agent/main.go:203-219 | with split read and write, for a status update as for a command that takes long to run, over whatever steps come in between: every interleaving drawn from a set of steps is sound exactly if the set holds no trigger |
| `CommandProtocol.StaleCompletedSoundIff` | cmd/machine-agent/main.go:203-219 | for one interleaving: an agent update that writes an old "completed" back, after steps in which nothing ran successfully, is sound exactly if nothing was triggered in between |
| `CommandProtocol.SplitTriggerIsSound` | internal/services/update_operations.go:73-111 | a trigger, which takes the old answer away, is sound whatever it read before |
| `CommandProtocol.AnswersAreMineIff` | internal/services/update_operations.go:113-144 | after a command was triggered, "completed" means that this command has run since, whatever else happens, exactly if others trigger only the same command or restores that lack an argument |
| `CommandProtocol.SecondTriggerMisleads` | internal/services/update_operations.go:113-144 | for instance, a save triggered after a restore is acknowledged to whoever waits for the restore |
| `CommandProtocol.Instance.Environment` | cmd/machine-agent/main.go:117-234 | whatever others do meanwhile keeps the protocol's invariant and extends the history; an answer that spoke of a command still does if others trigger nothing that can pass for it; while nobody else triggers, the latest trigger and what was run and saved stay |
| `CommandProtocol.MachineAgent.RunRestore` | cmd/machine-agent/main.go:613-625 | a complete restore command is executed with its three arguments, an incomplete one is refused with the field it lacks |
| `CommandProtocol.MachineAgent.HandlePendingCommand` | cmd/machine-agent/main.go:596-636 | the agent's handling of a pending command is the protocol's tick: what it executes, answers and clears; without a failed call it is handled and its answer written |
| `CommandProtocol.MachineAgent.RunStatusUpdate` | cmd/machine-agent/main.go:203-219 | a status update keeps the protocol's fields, unless the document could not be read: then a blank one replaces it; without a failed call the update is written |
| `CommandProtocol.BackupCoordinator.TriggerWorldSave` | internal/services/update_operations.go:73-89 | writes the save command and clears the result, or skips when there is no document; fails, changing nothing, exactly if a call failed |
| `CommandProtocol.BackupCoordinator.TriggerRestore` | internal/services/update_operations.go:91-111 | writes the restore command, and arguments that name this snapshot, repository and password to their reader, and clears the answer; or changes nothing, failing without a document or after a failed call |
| `CommandProtocol.TriggeredIsExecuted` | internal/services/update_operations.go:73-111 | a triggered command is executed, exactly as asked, by the first tick after any number of status updates that could read the document, and the answer says how it went |
| `CommandProtocol.HandledOnce` | cmd/machine-agent/main.go:631-636 | once its answer is written a command is gone with its arguments and not executed again |
| `CommandProtocol.BackupCoordinator.WaitForCommandAck` | internal/services/update_operations.go:113-144 | against any steps of others: nil with "completed" means that the document says so and that the latest triggered command, whoever triggered it, ran successfully; nil with "" only if there was no document to begin with; any other answer is an error; it polls at least once, and gives up without an answer only after a failed poll or when the time is up |
| `CommandProtocol.AcknowledgedSince` | internal/services/update_operations.go:113-144 | what a waiter learns: its command was acknowledged, and if the answer speaks of it, it has run since it was triggered |
| `Provisioning.SetFirstAt` | internal/services/provisioning.go:615-627 | the mutators' search loop changes exactly the first step of the given name |
| `Provisioning.SetInReach` | internal/services/provisioning.go:615-659 | setting a step at or just behind the front keeps the list in the shape Completed*, one other, Pending* |
| `Provisioning.CalculateProgress` | internal/handlers/servers/common.go:369-386 | the loop counts the completed steps, and COMPLETED is 100 unless there are no steps |
| `Provisioning.CountBounds` | internal/handlers/servers/common.go:377-385 | the count is at most the number of steps, and equals it exactly when all are completed |
| `Provisioning.ProgressBounds` | internal/handlers/servers/common.go:369-386 | the progress is within 0..100 |
| `Provisioning.LayoutProgress` | internal/handlers/servers/common.go:369-386 | moving the front on never lowers the progress |
| `Provisioning.ProvisioningStatus.UpdateStatus` | internal/services/provisioning.go:609-613 | a write stores the whole status or nothing, and counts the failed writes: a run without any has stored its last status |
| `Provisioning.ProvisioningStatus.SetStep` | internal/services/provisioning.go:616-623 | the search loop sets the first step of the name |
| `Provisioning.ProvisioningStatus.Begin` | internal/services/provisioning.go:146-151 | all steps pending, and stored so |
| `Provisioning.ProvisioningStatus.UpdateStep` | internal/services/provisioning.go:615-627 | the front step becomes in progress (an unknown name changes no step); what was stored stays in shape and never falls |
| `Provisioning.ProvisioningStatus.CompleteStep` | internal/services/provisioning.go:629-642 | the front moves on by one |
| `Provisioning.ProvisioningStatus.HandleError` | internal/services/provisioning.go:644-659 | the list and everything stored is in shape, the status failed, the earlier writes never fell; the progress before and after; it falls exactly if the step named had been completed or COMPLETED had been reported with steps to go |
| `Provisioning.ProvisioningStatus.Complete` | internal/services/provisioning.go:269-271 | the end of a run: outputs, COMPLETED; with the front at the end it has succeeded |
| `Provisioning.ProvisioningService.ExecuteUpWithRetry` | internal/services/provisioning.go:565-594 | at most the configured number of attempts, all but the last retryable failures, ok exactly if the last succeeded; fails only after a fault or with no attempts configured; a retryable failure is tried again unless the context is done; ok means that the stack was brought up, with these outputs |
| `Provisioning.ProvisioningService.ExecuteWithRetry` | internal/services/provisioning.go:534-563 | the same for the destroy loop, of which ok means that the stack was destroyed |
| `Provisioning.TrimSlashOnce` | internal/services/provisioning.go:217-217 | exactly one trailing slash is removed |
| `Provisioning.ProvisioningService.RestoreRepository` | internal/services/provisioning.go:210-219 | gs:, the bucket, :/ and the prefix without its trailing slash, or an error when prefix or bucket is missing |
| `Provisioning.ProvisioningService.AwaitAnswer` | internal/services/update_operations.go:113-144 | whatever others do while an operation waits, none of its own deployments or restores comes before its save |
| `Provisioning.ProvisioningService.SaveAndWait` | internal/services/update_operations.go:73-144 | nil only if the save asked for was acknowledged "completed" since, or there was no document when asked; it is the save that ran unless others trigger commands that can pass for it; with that, and whatever others trigger, a deployment or restore may follow |
| `Provisioning.ProvisioningService.SaveWorldFirst` | internal/services/provisioning.go:170-180 | the same around the step list: the save acknowledged or not needed, run under the same condition, and a deployment or restore may follow |
| `Provisioning.ProvisioningService.AwaitHealth` | internal/services/provisioning.go:194-198 | the health check cannot fail an operation, and is no step of resize and recreate |
| `Provisioning.ProvisioningService.ReadRequest` | internal/services/provisioning.go:153-168 | proceeds only with a configuration, a snapshot id and a prefix |
| `Provisioning.ProvisioningService.RestoreAndWait` | internal/services/update_operations.go:91-144 | the restore is triggered only where a save of this operation has been answered, on every path; nil only if the restore was acknowledged, and it is this restore that ran unless others trigger commands that can pass for it; as long as nobody else triggers it is the latest command |
| `Provisioning.ProvisioningService.RestoreWorldNext` | internal/services/provisioning.go:182-192 | the same around the step list |
| `Provisioning.ProvisioningService.SaveThenRestore` | internal/services/provisioning.go:170-203 | save, restore, health check: on every path, whatever others trigger, the restore of this operation comes only after its save was acknowledged or had no document; on nil all steps are completed, and save and restore were acknowledged and have run under the same condition |
| `Provisioning.ProvisioningService.FinishRestore` | internal/services/provisioning.go:194-201 | the health check and the last write keep what the restore has achieved, whatever others trigger |
| `Provisioning.ProvisioningService.BeginRestore` | internal/services/provisioning.go:145-168 | the steps are set up, and the request is read from configuration and outputs or the restore fails in shape |
| `Provisioning.ProvisioningService.RunRestore` | internal/services/provisioning.go:145-204 | from any stored status, on every path and whatever others trigger: no restore of this operation comes before its save was acknowledged or had no document; nil means that the restore of the snapshot named in the outputs from the repository they name was acknowledged, and that the agent has run it unless others trigger commands that can pass for it; every stored status is in shape, progress rises to 100; it fails only after a fault or an incomplete request, without falling back; with nobody else triggering, a run of a restore with the snapshot of the outputs, the bucket and the prefix of the outputs without its slash, and the password is in the history; nothing is asked of Pulumi |
| `Provisioning.ProvisioningService.RestoredRan` | internal/services/update_operations.go:100-104 | the restore that has run names the snapshot and prefix of the outputs |
| `Provisioning.ProvisioningService.RunCreate` | internal/services/provisioning.go:221-274 | from any stored status: shape of every stored status on every path; nil means all steps completed, progress rising to 100; it fails only after a fault, and falls back exactly if it had reached 100, to 50; nil means that the stack was upserted, configured and brought up and the configuration stamped, in this order, and the outputs are those of the stack; a failure leaves a beginning of that |
| `Provisioning.ProvisioningService.DeployCreated` | internal/services/provisioning.go:248-272 | the second half of a create: in shape, and the fall from 100 to 50 when the stamping of the configuration fails; on nil the stack is up, the configuration stamped and the outputs taken over |
| `Provisioning.ProvisioningService.RunPulumiUpdate` | internal/services/provisioning.go:359-407 | ends COMPLETED with the caller's remaining steps still pending, or failed in shape without falling back; nil means the four calls of an update in order and the outputs of the stack, a failure a beginning of them |
| `Provisioning.ProvisioningService.DeployUpdate` | internal/services/provisioning.go:381-404 | the second half of an update, in shape on every path; COMPLETED on nil |
| `Provisioning.ProvisioningService.RunInPlaceUpdate` | internal/services/provisioning.go:287-289 | the same without steps of its own: progress stays 0; for steps left from before only the terminal status is promised; nil means exactly these calls |
| `Provisioning.ProvisioningService.RunResizeUpdate` | internal/services/provisioning.go:291-325 | shape and rising progress although COMPLETED is stored before start_instance has run; it falls back exactly if it had reached 100, to 66; nil means that the instance was stopped, the stack updated and the instance started, in this order; and on every path, once the instance is stopped the last thing tried is to start it |
| `Provisioning.ProvisioningService.ResizeStopped` | internal/services/provisioning.go:305-324 | whatever becomes of the update the instance is started again; failing after COMPLETED falls from 100 to 66; the last thing tried is the start |
| `Provisioning.ProvisioningService.StartAgain` | internal/services/provisioning.go:312-324 | start_instance after COMPLETED: all completed, or failed in shape and fallen from 100 to 66 |
| `Provisioning.ProvisioningService.RunRecreateUpdate` | internal/services/provisioning.go:327-357 | on every path and whatever others trigger, the stack is brought up only after the save of this operation was acknowledged or had no document; on nil that save has run unless others trigger commands that can pass for it; a failure does not fall back; nil means the calls of an update |
| `Provisioning.ProvisioningService.RecreateSaved` | internal/services/provisioning.go:341-356 | once the save is answered the update brings the stack up, in shape and without falling back |
| `Provisioning.ProvisioningService.RunUpdate` | internal/services/provisioning.go:276-285 | the steps an update ends with are those of the kind asked for and of no other; only a resize that had reached 100 falls back; nil means the calls of that kind; the instance is stopped exactly for type 1, and type 2 saves first |
| `Provisioning.ProvisioningService.ExecuteOperation` | internal/services/provisioning.go:466-490 | from any stored status every known operation ends with a terminal status that agrees with its result, and so does its last stored status; an update has the steps of its kind; it fails only after a fault, an incomplete restore request or with no attempts configured; the progress falls only in failing creates and resizes that had reached 100; each operation ends with its own steps, and on nil with its own calls, its own restore or its own destroy |
| `Provisioning.ProvisioningService.RunDestroy` | internal/services/provisioning.go:409-462 | shape, rising progress, all completed on nil; the configuration and the backups are touched only then, the backups only if the deletion of the configuration succeeded; without faults exactly the step Destroy; nil means that the stack was destroyed, and nothing else was asked for; without faults every backup that the index names is stamped with the times of the destroy and remembers the configuration |
| `Provisioning.ProvisioningService.EndDestroy` | internal/services/provisioning.go:435-459 | what becomes of configuration, index and backups at every possible failure, and without any: the backups are untouched unless the deletion of the configuration succeeded, and are then stamped with what was known of it; without faults every record that the index names has the two times and the configuration |
| `Provisioning.CleanDestroyIsStep` | internal/services/provisioning.go:435-459 | a destroy whose end has no fault is the step Destroy of the runs in which sweeps are safe |
| `Provisioning.CleanDestroyStamps` | internal/services/provisioning.go:441-459 | a destroy whose end has no fault gives every backup that the index names the two times, the configuration of the server and its id, and changes nothing else of it |
| `Provisioning.HalfDestroyedIsOrphan` | internal/services/provisioning.go:435-459 | where everything was in order, a destroy that fails between the record and the index entry of the configuration leaves an unconfigured server with unstamped backups |
| `ServerConfigs.ConfigStore.GetServerConfig` | internal/db/dapr.go:406-421 | the stored configuration, or an error if there is none or the call failed |
| `ServerConfigs.ConfigStore.DeleteServerConfig` | internal/db/dapr.go:432-451 | on nil record and index entry are gone; a failure can leave the index naming a server without a record; fails only after a failed call |
| `Provisioning.GuardedLater` | internal/services/update_operations.go:113-144 | what others do while an operation waits adds no unguarded deployment or restore |
| `Provisioning.ProtectedLater` | internal/services/update_operations.go:113-144 | nor, whatever they trigger, an unprotected deployment or restore of this operation |
| `Provisioning.ProtectedAppend` | internal/services/provisioning.go:170-192 | an entry of its own keeps that, as long as a deployment or restore comes after an answered save |
| `Provisioning.ProgressFallsIff` | internal/services/provisioning.go:644-659 | what an error makes of the progress; it lowers it exactly if the step named had been completed, or COMPLETED had been reported with steps to go |
| `Provisioning.AllCompleted` | internal/handlers/servers/common.go:369-386 | with the front at the end every step is completed and the progress is 100, or 0 without steps |
| `GoroutineExecutor.Executor.StartOperation` | internal/services/executor_goroutine.go:26-76 | admitted exactly when the context is live and the server has no entry; then an entry and a goroutine appear together |
| `GoroutineExecutor.Executor.Deferred` | internal/services/executor_goroutine.go:46-51 | the end of a goroutine removes whatever entry its server has |
| `GoroutineExecutor.Executor.CancelOperation` | internal/services/executor_goroutine.go:78-91 | succeeds exactly when there is an entry; the goroutine lives on |
| `GoroutineExecutor.StepKeepsInv` | internal/services/executor_goroutine.go:26-91 | every start, exit and cancel keeps E <= L <= C + E on every server, and exact agreement of entry and goroutine while C is 0 |
| `GoroutineExecutor.EveryInterleaving` | internal/services/executor_goroutine.go:26-91 | hence in every interleaving; without cancels at most one operation per server is live and the entry exists exactly while it runs |
| `GoroutineExecutor.ExclusiveIffBalanced` | internal/services/executor_goroutine.go:26-91 | from any reachable state, as long as nothing is cancelled there again, at most one operation is live on a server in every continuation exactly if its live goroutines are as many as its entries now |
| `GoroutineExecutor.CancelLosesExclusion` | internal/services/executor_goroutine.go:78-91 | after a start and a cancel the server is not safe: a further start, the old exit and a third start leave two live operations |
| `CloudTasks.CloudTasksExecutor.StartOperation` | internal/services/executor_cloudtasks.go:41-87 | without faults the start is refused exactly when an operation is in progress; what it stores is the step Start of the runs, or nothing; success enqueues its delivery, a failure enqueues nothing |
| `CloudTasks.CloudTasksExecutor.CancelOperation` | internal/services/executor_cloudtasks.go:89-104 | without faults it succeeds exactly for an operation in progress, and is then the step Cancel of the runs; nothing changes otherwise |
| `CloudTasks.CloudTasksExecutor.HandleProvisioningTask` | internal/handlers/tasks/handler.go:32-93 | unless a call fails, the body runs exactly when the configuration exists and the gate is open (or there is no operation id), and a shut gate skips; with an id this is the step Deliver of the runs; every update is handed type 0 |
| `TaskHandler.Handler.Handle` | internal/handlers/tasks/handler.go:84-93 | a delivery runs the stored operation to its end; whatever kind of update was asked for, it is the kind performed exactly if it is the one in place; a destroy is of the server of the task |
| `CloudTasks.StepKeepsInv` | internal/handlers/tasks/handler.go:49-67 | every start, cancel, delivery, body write and death keeps: an operation is stored as in progress only while its body runs or as long as all its bodies have died |
| `CloudTasks.OnceMoreThanDeaths` | internal/handlers/tasks/handler.go:49-92 | in every run a body is started at most once more often than it has died |
| `CloudTasks.AtMostOnce` | internal/handlers/tasks/handler.go:49-92 | in every run in which it does not die, however deliveries repeat, no operation's body is started twice |
| `CloudTasks.RedeliveryChangesNothing` | internal/handlers/tasks/handler.go:56-66 | a delivery starts the body exactly when the gate is open; otherwise, and always after a body that did not die, it changes nothing |
| `CloudTasks.ShutForever` | internal/handlers/tasks/handler.go:56-66 | a shut gate of an operation whose body does not run stays shut in every continuation |
| `CloudTasks.CanStartIff` | internal/handlers/tasks/handler.go:49-92 | some continuation starts the body once more exactly when its gate is open or it is running |
| `CloudTasks.FirstStartIffGateOpen` | internal/handlers/tasks/handler.go:49-92 | a body that has not been started yet is started by some continuation exactly if its gate is open now |
| `CloudTasks.DeadBodyRunsAgain` | internal/handlers/tasks/handler.go:49-92 | the bound is met: for any number of deaths there is a run in which each of them is followed by another start of the body |
| `CloudTasks.LateWriteStarvesSuccessor` | internal/services/executor_cloudtasks.go:89-104 | after a cancel, the late write of the cancelled body shuts its successor's gate: in every continuation its body is never started |
| `SearchCache.SlotAnswers` | internal/services/modrinth.go:104-111 | what the slot answers for a request is its most recent successful fetch, as long as keys tell requests apart |
| `SearchCache.ModrinthSearchCache.Lookup` | internal/services/modrinth.go:104-111 | hits for this key only, and whether they are fresh |
| `SearchCache.ModrinthSearchCache.Store` | internal/services/modrinth.go:113-119 | the slot holds the new hits until their expiry |
| `SearchCache.ModrinthService.Search` | internal/services/modrinth.go:151-179 | whatever was searched before, the answer is the most recent successful fetch with this cache key, and the most recent one of this very request among requests that the key tells apart; after a failed fetch it is what the slot holds for the key, else empty; Modrinth is asked exactly if at neither look the slot held hits for the key that had not expired, and then the slot holds its hits until the time of storing plus the time to live; an answer from the slot changes nothing |
| `SearchCache.InjectiveRunsAreSound` | internal/services/modrinth.go:151-179 | the same for every step of every interleaving of concurrent searches |
| `SearchCache.SoundIffInjective` | internal/services/modrinth.go:195-197 | over any set of requests every interleaving is sound exactly when the cache key is injective on it |
| `SearchCache.CollisionIsUnsound` | internal/services/modrinth.go:100-111 | two requests with one key: the second is served the first one's hits |
| `SearchCache.BarFreeVersionsAreInjective` | internal/services/modrinth.go:195-197 | the key is injective on requests whose version holds no '\|' |
| `SearchCache.BarCollides` | internal/services/modrinth.go:195-197 | with '\|' in the version it is not |
| `CloudConfig.ReplaceOne` | internal/pulumi/programs/cloud_config.go:177-180 | one ReplaceAll substitutes exactly its own placeholder in a template some of whose placeholders are filled in, if no filled-in value can produce it |
| `CloudConfig.SafeInOrder` | internal/pulumi/programs/cloud_config.go:177-180 | with a safe table, ReplaceAll over any duplicate-free order of entries substitutes exactly those |
| `CloudConfig.SafeRenders` | internal/pulumi/programs/cloud_config.go:177-180 | any order of all entries is the simultaneous substitution |
| `CloudConfig.RenderCloudConfig` | internal/pulumi/programs/cloud_config.go:152-182 | the loop over the map, in whatever order, yields the simultaneous substitution for a safe table, and an in-order rendering for any |
| `CloudConfig.ProducingPairDepends` | internal/pulumi/programs/cloud_config.go:177-180 | a value that can produce another entry's placeholder gives a template and an order with a different result |
| `CloudConfig.OrderIndependentIffSafe` | internal/pulumi/programs/cloud_config.go:177-180 | every order gives the simultaneous substitution for every clean template exactly when no value can produce another entry's placeholder |
| `CloudConfig.DollarFreeIsSafe` | internal/pulumi/programs/cloud_config.go:152-180 | values without '$' are enough |
| `CloudConfig.SourceTableValid` | internal/pulumi/programs/cloud_config.go:152-175 | the 22 names of the table are distinct and hold neither '$' nor '}', so the theorems apply to it whatever its values |

## Left out

- Create and list of server configurations (`internal/db/dapr.go:381-404`, `453-490`): one record and one index, the pattern of the whitelist store, so they would add only easy members.
- Pulumi, GCP, docker, RCON and restic themselves: a call succeeds or fails; HTTP routing, login, tokens, tracing and the web client not at all.
- Status documents are replaced by the fields a property needs: step messages, timestamps, player counts, addresses and versions are left out.
- How a program configuration is assembled for Pulumi, including the restore fields copied from an operation's outputs, and which of Pulumi's outputs are strings.
- The order in which a store answers a bulk read: taken to be the order of the keys.
- Split reads and writes of the provisioning status, and, in the protocol's whole runs, of the status document: taken as one step, see the assumptions.
- `ListAllBackups` and its sorting: its comparator does not define an order on ties.
- The legacy backupdeleted marker, which a deletion removes at best effort at its end, is a key only.
- How the values of the cloud-config table are computed from the server settings, including defaults and the backup prefix.
- A literal '$' at the end of a text piece, or "${" in one: such templates are outside the rendering theorems; the shipped template has neither.
- Whether a template could also be independent of the order with an unsafe table is settled per table, not per template: the equivalence ranges over all clean templates.
- Operation ids of one second that coincide: excluded by assumption.
- How the time of a manifest is parsed and converted to UTC; the model starts from a UTC time.
- ManifestRelay.MachineAgent.ProcessFile: nothing arrives, and others do not act on the store, while one file is dealt with; they do between any two files.
- `WaitForServerHealthy` is only time passing, since its verdict is only logged.
- Of the backup a report stores, server name, report time and detected version; the configuration stored with it is any, since the report handler reads it outside the model.
- The map iteration of Go and the file order of a directory are arbitrary choices, so nothing is said about a particular order.
- ManifestRelay.MachineAgent.HandleBackupReport: does not tell the early refusals (404, 401, 403, 500) apart, since the agent treats all but 400 alike.
- Provisioning.ProvisioningService.ExecuteOperation: starts from a status that was read; a status that cannot be read ends it at once. Retention dates are a parameter, not computed from the calendar.
- GoroutineExecutor.Executor.StartOperation: does not model the operation's body or its timeout, which the exclusion does not depend on.
- CommandProtocol.CompletedIsSound: says nothing of histories without a trigger, in which "completed" may be left over from before.
