# cnpg-portal: a model of the tenant lifecycle and its proofs

cnpg-portal manages application databases ("tenants") inside CloudNativePG clusters. One tenant is spread over five
stores: a SOPS file in the workspace, a Kubernetes Secret, a Postgres role, a Postgres database, and a
`spec.managed.roles` entry in `cluster.yaml`. There is no transaction over them; the program's rule is that every
verb can be retried from any state. This project models the verbs as sequences of calls that may fail before, within
or after their effect, with the CNPG operator acting between any two of them, and proves what every run of them
keeps and reaches. Around that core it models the text formats, names, paths and manifest edits the verbs rely on.

| file | models |
|---|---|
| `Stores.dfy` | the stores, the commands that change them, runs of commands and operator steps |
| `Cluster.dfy` | `class World`: the stores behind fallible calls; a script fixes all faults, so a proof for every script is a proof for every run |
| `Plans.dfy`, `Verbs.dfy`, `Restore.dfy` | the six verbs as imperative methods over a `World`, each proved to attempt its plan: success is the whole plan, failure a prefix of it |
| `Agreement.dfy`, `Convergence.dfy` | the three copies of the password: delivery, retries, the operator |
| `Drops.dfy`, `Overwrites.dfy` | the destructive verbs over all their runs |
| `Isolation.dfy` | histories of arbitrary verbs: other tenants, repairability |
| `Stream.dfy` | the two goroutines, the pipe and the channels of `CrossPodDumpRestore` |
| `Manifest.dfy` | edits of the YAML tree |
| `Names.dfy`, `Destinations.dfy`, `Paths.dfy`, `Catalogs.dfy`, `Backups.dfy` | normalisation, default names, path containment, catalog, backup selection |
| `SecretYaml.dfy`, `ConnStrings.dfy`, `Sql.dfy` | printers and the readers that undo them |
| `AtomicWrite.dfy` | temp file and rename |
| `Strings.dfy` | the string functions taken from Go's library |

How the lifecycle part fits together: a verb method starts with `Begin`, sends `Command`s and records what happened as
`acts` (effects, operator steps, failed calls). Its `ensures` is an `…Attempt` predicate on the starting state, the
acts and the result. The lemmas then quantify over every `acts` that satisfies such a predicate, so they hold for
every script of faults and reconciliations; `Retries`, `DropRetries` and `History` chain attempts.

## What the code does not keep

These are results about the code as it stands; where code and comments differ, the model follows the code.

- `ensureSecretFile` takes any error of `os.Stat`, not only "does not exist", for a missing file
  (`internal/tenant/provision.go:97`). The promise that a persisted password never changes holds exactly when no such
  error happens, the attempt stops before its first command, or the fresh password is the old one
  (`Convergence.PersistedPasswordKept`); `Convergence.StatErrorOverwrites` is an attempt that breaks it. The attempts
  this concerns are marked `blind`.
- `clusteryaml.modify` writes with `os.WriteFile`, which truncates first. An error therefore leaves the file as it
  was exactly if nothing was written or the same tree was (`Cluster.FailedEditUnchangedIff`). A torn write is a command
  of its own here (`Tear`), and it is the one thing retrying cannot mend: after every history of partly failed verbs a
  fault-free Provision returns nil if and only if the manifest has a roles sequence
  (`Isolation.RecoverableFromEverywhere`), only a torn write takes it away (`Isolation.AlwaysReady`), and
  `Isolation.TornWriteHappens` is a run that does.
- `RemoveRole`'s comment says that a missing role leaves the file unchanged; the code writes the same tree again, so a
  torn write can happen even then.
- After a Rotate that returns nil, role and Secret may disagree until the operator acts once more;
  `Convergence.RotateAtReturn` gives the exact condition for every starting state, `Convergence.RotateLosesRace` a run.
- If `CreateRecoveryCluster` reports an error after the cluster was created, the deferred delete is not installed yet
  and the recovery cluster stays. That is the only way a created cluster is left without an attempt to delete it
  (`Overwrites.LeftUntriedIff`), and it happens (`Overwrites.CreationLeaks`).
- Drop's order keeps the tenant's own database from losing its role; that no other database loses its owner is left to
  the server, which refuses to drop a role in use (`Drops.OrderProtectsOwnDatabase`).
- A `pg_restore` that gives up early makes `CrossPodDumpRestore` hang until its context is cancelled, because the read
  end is closed only after both results arrived (`Stream.StuckIff`, `Stream.EarlyFailureHangs`).
- `generatePassword`'s comment speaks of 32 random bytes; the code draws 24 (32 characters).
- A secret prefix does not separate every pair of tenants: prefix `a` with tenant `b_c` meets prefix `a-b` with
  tenant `c` (`Names.PrefixAndTenantMeet`).
- The default branch destination can be the source itself (`Destinations.DefaultIsSourceIff`); its fallback suffixes are
  never reached.
- Hand-written passwords are outside the promises of some formats: the exact domains are `SecretYaml.RoundTrips`,
  `ConnStrings.LibpqSafe` and, for the DO block, passwords without `$$`.

## Model

| member | source | states |
|---|---|---|
| Cluster.World.Send | internal/tenant/tenant.go:5 | a call's effects are a prefix of what it carried, all of it on success; an error says nothing about how far it came; without faults it succeeds exactly if every service accepts |
| Cluster.World.WriteManifest | internal/clusteryaml/patch.go:92-118 | the write is applied, torn or not begun; only the first returns nil |
| Cluster.World.PatchManifest | internal/clusteryaml/patch.go:92-118 | read, edit, write back; an error before the write changes nothing, an already declared role is told apart |
| Cluster.FailedEditUnchangedIff | internal/clusteryaml/patch.go:92-118 | an error leaves the file as it was exactly if nothing was written or the same tree was, and a completed write is the same tree only for the removal of an undeclared role |
| Stores.OperatorOnlyTouchesPasswords | internal/tenant/rotate.go:25-29 | however the operator interleaves, everything but role passwords is what the verb's commands alone make of it |
| Verbs.EnsureSecretFile | internal/tenant/provision.go:94-122 | an existing file is reused, else one with a fresh password is written, and the returned password is the source's |
| Verbs.ApplyClusterSecret | internal/tenant/provision.go:165-199 | creates a missing Secret, updates a differing one, leaves an equal one alone |
| Verbs.EnsureDatabase | internal/tenant/provision.go:217-236 | creates the database, or moves its ownership, by what it finds |
| Verbs.EnsureGrants | internal/tenant/provision.go:238-253 | the connection grant first, then the three grants inside the database |
| Verbs.Provision | internal/tenant/provision.go:31-89 | each attempt is a prefix of the plan, torn only at the manifest write; nil means the whole plan and a tenant described by its own names, Secret and DSN host; an invalid name changes nothing; without faults nil comes exactly when the start is provisionable (`Provisionable`, spelled out by ProvisionableIff) |
| Verbs.Rotate | internal/tenant/rotate.go:34-92 | role, then Secret, then file; nil means all three and a DSN with the fresh password; without confirmation, a valid name or the role nothing changes |
| Verbs.Drop | internal/tenant/drop.go:36-99 | database, role, Secret, manifest entry, file, in this order; nil means all five; without confirmation nothing changes; a failing termination of sessions does not matter |
| Verbs.Sync | internal/tenant/sync.go:35-88 | both existence checks, drop, create, load, grant; nil means all; a request that is invalid or not confirmed changes nothing |
| Verbs.Branch | internal/tenant/branch.go:55-86 | a Provision of the destination followed by the clone and the grants; the provisioned tenant is returned even beside an error of the clone; without faults nil comes exactly when it is branchable |
| Agreement.ProvisionDelivers | internal/tenant/provision.go:31-89 | from every state, with operator steps anywhere, nil leaves file, Secret and role holding the password of the returned DSN, the database owned and granted with its contents kept, and the role declared, a new entry as a present login role with the tenant's Secret; an existing Secret keeps its type and other keys; the tenant returned is described by its own names |
| Convergence.PersistedPasswordKept | internal/tenant/provision.go:94-122 | one attempt cut off anywhere keeps the persisted password if and only if no os.Stat failed, nothing was sent, or the fresh password equals it |
| Convergence.RetriesConverge | internal/tenant/provision.go:31-122 | from a persisted password on, over any number of cut-off attempts without a failing os.Stat, it stays and is what every success returns; if the last attempt succeeded the tenant is fully provisioned with it |
| Convergence.FreshRetriesConverge | internal/tenant/provision.go:31-122 | the same from the start, for a tenant without a file: either every attempt failed and changed nothing, or the password first written stays and is what every success returns |
| Convergence.StatErrorOverwrites | internal/tenant/provision.go:97-121 | from every state with a persisted password there is an attempt with a failing os.Stat that replaces it |
| Convergence.UnreadableIsRefused | internal/tenant/provision.go:97-107 | a file without a password is reported and nothing is done |
| Convergence.ProvisionEndsWithManifest | internal/tenant/provision.go:42-79 | when the manifest has changed, file, Secret, role and database are all in place |
| Convergence.ProvisionableIff | internal/tenant/provision.go:31-89 | a fault-free Provision succeeds exactly if the Secret exists or its name fits, the password has no $$, and the manifest has a roles sequence |
| Convergence.FreshTenantProvisionable | internal/tenant/provision.go:31-89 | for a fresh tenant of a catalog workspace only the manifest can stand in the way |
| Convergence.ProvisionedStays | internal/tenant/tenant.go:5 | on a fully provisioned tenant every attempt without a failing os.Stat, finished or cut off, changes nothing |
| Convergence.RotateDelivers | internal/tenant/rotate.go:25-29 | nil from any state: one operator step later file, Secret and role hold the fresh password of the DSN; an existing Secret keeps its type and other keys; database, manifest and clusters are as before |
| Convergence.RotateInOrder | internal/tenant/rotate.go:66-83 | wherever a Rotate stops, a new file means a new Secret, and a new Secret means that the role was altered first |
| Convergence.RotateAtReturn | internal/tenant/rotate.go:66-83 | from every state, role and returned DSN disagree at the return exactly if the Secret held another password, the operator acted between the ALTER and the Secret write, and not again after it |
| Convergence.RotateLosesRace | internal/tenant/rotate.go:66-83 | from every state with another password in the Secret there is a Rotate that returns nil and disagrees |
| Convergence.RotatableIff | internal/tenant/rotate.go:34-92 | without faults Rotate finishes exactly if the role exists and the Secret exists or its name fits |
| Convergence.OperatorAgrees | internal/tenant/rotate.go:25-29 | one operator step makes role and Secret agree whatever came before, and they stay so through everything that leaves Secrets and roles alone |
| Drops.DropDelivers | internal/tenant/drop.go:53-98 | nil from any state leaves none of the five traces |
| Drops.DropAttemptOrder | internal/tenant/drop.go:53-98 | wherever one Drop stops, a trace that is still there means that no later one was touched, and no database, role, Secret or file appeared, nor an entry unless a write was torn |
| Drops.DropRunsInOrder | internal/tenant/drop.go:53-98 | the same over every run of interrupted and retried Drops |
| Drops.RoleDroppedAfterDatabase | internal/tenant/drop.go:60-70 | whenever Drop drops the role, the tenant's database is gone already |
| Drops.OrderProtectsOwnDatabase | internal/tenant/drop.go:66-70 | even on a server that would drop any role, an interrupted Drop never leaves the tenant's database without its role, and leaves another one so exactly if it depends on the role |
| Drops.DroppableIff | internal/tenant/drop.go:53-98 | without faults Drop finishes exactly if the database is not the superuser's, no other database depends on the role, and the manifest has a roles sequence |
| Drops.DropAgainIsIdle | internal/tenant/tenant.go:5 | a Drop of what is gone changes nothing |
| Overwrites.SyncDelivers | internal/tenant/sync.go:53-87 | nil changes one thing: the destination is owned by its role, holds the source's contents and the tenant's grants |
| Overwrites.SyncGuarded | internal/tenant/sync.go:92-100 | in every attempt anything changes only after both databases were found; a missing destination refuses the retry and changes nothing |
| Overwrites.SyncableIff | internal/tenant/sync.go:53-87 | without faults Sync finishes exactly if both databases and the destination's role exist and the destination can be dropped |
| Overwrites.SyncSparesCredentials | internal/tenant/sync.go:35-88 | no attempt at Sync changes a role, Secret, file or the manifest |
| Overwrites.ProvisionThenSync | internal/tenant/sync.go:53-87 | from every state, Provision then Sync, both nil, give the source's contents and agreeing credentials |
| Overwrites.BranchDelivers | internal/tenant/branch.go:55-86 | nil into an empty destination leaves a provisioned tenant with the source's contents, described by its own names in what is returned |
| Overwrites.BranchableIff | internal/tenant/branch.go:55-86 | without faults Branch finishes exactly if the names are valid and differ, the source exists and the destination can be provisioned |
| Restore.ChooseBackup | internal/tenant/restore.go:33-60 | what is chosen is a completed backup of this cluster, with the requested name and a backup ID; without faults one is chosen exactly if there is one |
| Restore.AwaitReachable | internal/tenant/restore.go:83-112 | a served database is asked until a probe meets no fault, and given up only when all patience + 1 probes met one |
| Restore.Recover | internal/tenant/restore.go:78-144 | the steps happen in order up to the first failure, and the result says whether the cluster was deleted; failing probes within the patience and a failing termination of sessions do not matter |
| Restore.RestoreFromBackup | internal/tenant/restore.go:19-145 | the plan in order up to the first failure, then the cleanup; a creation that reported an error ends the run; deletions are tried only after the creation; nil means the whole plan; when nothing fails but probes within the patience and the termination of sessions, nil comes exactly when the start is restorable |
| Overwrites.RestoreIsGuarded | internal/tenant/restore.go:33-130 | the primary's databases change only after a backup of this cluster was chosen whose phase is "completed" and that has an ID, a new cluster not named like any other was created from it, and it answered for the tenant's database |
| Overwrites.RestoreSparesClusters | internal/tenant/restore.go:62-76 | in every attempt every cluster that existed stays as it was, one of the recovery name and the live one included; only one of the recovery name can be new |
| Overwrites.RestoreDeletesItsOwn | internal/tenant/restore.go:67-76 | a deletion is done or tried only on a name that was free when the run started, so never on the live cluster |
| Overwrites.RestoreSparesCredentials | internal/tenant/restore.go:19-145 | no attempt changes a role, Secret, file or the manifest |
| Overwrites.LeftUntriedIff | internal/tenant/restore.go:63-76 | a run created the cluster and neither deleted it nor tried to exactly if the creation took effect, reported an error and nothing else happened |
| Overwrites.LeftBehindIff | internal/tenant/restore.go:63-144 | the cluster is left behind exactly if it was created and no deletion took effect, and never on nil |
| Overwrites.CreationLeaks | internal/tenant/restore.go:63-66 | from every state with a choosable backup and a free name there is such a leaking run |
| Overwrites.RestoreDelivers | internal/tenant/restore.go:33-145 | nil: the recovery cluster is gone, the database holds exactly the recovered contents with owner and grants, and nothing else changed |
| Overwrites.RestorableIff | internal/tenant/restore.go:33-145 | without faults Restore finishes exactly if names are valid, the live cluster exists, the recovery name is free, a choosable backup recovers the tenant's database, its role exists and the database can be dropped |
| Isolation.GuardsHold | internal/tenant/drop.go:37-45 | no attempt at any verb changes a store or returns nil unless names are valid and differ, destructive verbs are confirmed, Rotate found the role, and Restore found the live cluster and a usable backup |
| Isolation.VerbAims | internal/tenant/provision.go:31-89 | no attempt at any verb sends a command about another tenant; roles are dropped by Drop only, and clusters are created, asked and deleted by Restore only, and only its own |
| Isolation.RoleGoesAfterDatabase | internal/tenant/drop.go:60-70 | over all verbs and states, a role is dropped only when the database of its name is gone already |
| Isolation.OtherTenantsUntouched | internal/tenant/provision.go:31-89 | over every history of partly failed verbs, other tenants keep database and role, Secret and file if their Secret name differs, and, without torn writes, their manifest entries in order |
| Isolation.OtherPasswordStays | internal/tenant/rotate.go:34-92 | another role's password moves only when the operator copies it from that role's own Secret |
| Isolation.AlwaysUsable | internal/tenant/tenant.go:5 | over every history of partly failed verbs, torn writes included, the SOPS file stays missing or usable |
| Isolation.AlwaysReady | internal/clusteryaml/patch.go:92-118 | only a torn write takes the roles sequence away |
| Isolation.RecoverableFromEverywhere | internal/tenant/tenant.go:5 | after every such history a fault-free Provision returns nil if and only if the manifest has a roles sequence, and any Provision that returns nil makes all copies of the password agree with the DSN |
| Isolation.TornManifestBlocks | internal/clusteryaml/patch.go:92-118 | with no roles sequence left in the manifest no Provision returns nil |
| Isolation.TornWriteHappens | internal/clusteryaml/patch.go:117 | for every tenant Provision could finish but whose entry is missing there is an attempt that empties the manifest |
| Stream.RunKeepsInv | internal/pg/stream.go:22-64 | every interleaving keeps the pipe, the channels and the main goroutine consistent |
| Stream.OnlyPrefixesArrive | internal/pg/stream.go:22-64 | what restore has read is a prefix of what dump wrote, which is a prefix of the archive |
| Stream.EofAfterDump | internal/pg/stream.go:28-38 | the end of the stream shows only after dump's Exec returned |
| Stream.NilMeansWholeArchive | internal/pg/stream.go:54-64 | nil exactly if both Execs succeeded; then the whole archive went through the pipe, and pg_restore got all of it exactly if no chunk was taken after its Exec returned, in particular if it stopped at the end of the stream |
| Stream.EarlySuccessLosesAll | internal/pg/stream.go:54-64 | the assumption that pg_restore succeeds only at the end is needed: for every archive a run returns nil with nothing restored |
| Stream.TruncationIsReported | internal/pg/stream.go:28-64 | there is a run in which pg_restore takes a truncated stream for a whole one, and the caller gets dump's error |
| Stream.SendsNeverBlock | internal/pg/stream.go:26-53 | neither goroutine ever waits to hand over its result |
| Stream.StuckIff | internal/pg/stream.go:54-57 | the call hangs exactly if restore is done, its last chunk was taken in vain, a write is still waiting and nobody has cancelled |
| Stream.ReadingToTheEndSuffices | internal/pg/stream.go:39-57 | a restore that reads to the end, or a cancellation, rules that out |
| Stream.EarlyFailureHangs | internal/pg/stream.go:39-57 | for every archive of more than one byte there is a run that hangs |
| Stream.NothingLeftMeansReturned | internal/pg/stream.go:54-64 | a run in which nothing can happen any more has returned |
| Stream.RunsEnd | internal/pg/stream.go:22-64 | every run is finite, bounded by the size of the archive |
| Manifest.FindChild | internal/clusteryaml/patch.go:140-150 | the value after the first key of that name at an even position of a mapping, exactly if there is one |
| Manifest.NavigateRoles | internal/clusteryaml/patch.go:120-138 | finds the roles sequence exactly if the path of lookups exists |
| Manifest.AppendRole | internal/clusteryaml/patch.go:32-45 | refuses empty fields, a missing sequence and a declared name; otherwise one entry is added at the end |
| Manifest.Compact | internal/clusteryaml/patch.go:49-64 | compaction over its own array is the functional filter |
| Manifest.RemoveRole | internal/clusteryaml/patch.go:49-64 | the entries of other names remain, in order |
| Manifest.AppendListsRole | internal/clusteryaml/patch.go:32-45 | appending an absent name lists exactly one more role, last, with its fields; a reader of the entry finds present, login, createdb, inherit and connectionLimit as the program's defaults |
| Manifest.NewEntryIsStandard | internal/clusteryaml/patch.go:161-183 | what is found under each key of a new entry, tags included |
| Manifest.RolesUnderKeys | internal/clusteryaml/patch.go:120-138 | the roles sequence is what lies under spec, managed and roles |
| Manifest.RemoveListsOthers | internal/clusteryaml/patch.go:49-90 | removing lists every role of another name, in order, and none of that name |
| Manifest.RemoveUndoesAppend | internal/clusteryaml/patch.go:32-64 | removing what was just appended gives back the very tree |
| Manifest.EditsStayOnPath | internal/clusteryaml/patch.go:120-138 | every node off the roles path is untouched |
| Manifest.SameTreeIff | internal/clusteryaml/patch.go:47-64 | the only edit that gives back the very tree is the removal of an undeclared name |
| Manifest.EditsKeepOthers | internal/clusteryaml/patch.go:32-64 | over every sequence of edits of the tree, applied or refused, unique names stay unique and entries of other names are the same nodes in the same order |
| Names.Dns1123Basename | internal/workspace/workspace.go:119-137 | the filter and collapse loops end and give hyphen-separated words, empty ones dropped, else "app" |
| Names.BasenameIsHyphenated | internal/tenant/k8sname.go:17-35 | every ASCII name is normalised to a well-formed hyphenated name |
| Names.BasenameIsIdempotent | internal/workspace/workspace.go:119-137 | normalising twice is normalising once |
| Names.SecretNamesCollide | internal/workspace/workspace.go:97-103 | two Secret names agree exactly if prefix words followed by tenant words are the same list |
| Names.TenantsCollide | internal/workspace/workspace.go:97-103 | in one workspace: exactly if the non-empty underscore-separated segments agree |
| Names.WorkspacesCollide | internal/workspace/workspace.go:97-103 | for one tenant: exactly if both or neither workspace is prefixed and the prefixes normalise equally |
| Names.PrefixAndTenantMeet | internal/workspace/workspace.go:97-137 | prefix and tenant together are not injective |
| Names.SecretNameReads | internal/workspace/workspace.go:97-103 | the normalised prefix if there is one, the tenant's segments joined by hyphens, and "-pg-credentials" |
| Names.SecretNameIsValid | internal/workspace/workspace.go:97-103 | a Secret name is a DNS subdomain exactly if it is not too long, and always for valid tenants and prefixes |
| Names.RecoveryClusterNameIsLabel | internal/cnpg/cluster.go:208-224 | a label of at most 63 characters for every tenant and nonce: "pg-restore-", the start of the normalised tenant, a hyphen and four hexadecimal digits that denote the nonce |
| Names.RecoveryClusterNamesDiffer | internal/cnpg/cluster.go:208-224 | different nonces give different names |
| Destinations.DefaultIsIdentSafe | internal/tenant/branch.go:15-42 | the default destination of every acceptable source is a valid tenant name |
| Destinations.DefaultIsSourceIff | internal/tenant/branch.go:15-42 | it is the source itself exactly for 63-character tenant names ending in "_dev" |
| Paths.AcceptedIffInside | internal/workspace/workspace.go:300-315 | a non-empty relative value is accepted exactly if no prefix of its component walk rises above the start |
| Paths.AcceptedStaysUnder | internal/workspace/workspace.go:300-315 | an accepted value leads from any absolute root to a path under it |
| Paths.RejectedLeaves | internal/workspace/workspace.go:300-315 | a rejected relative value really leaves the root on its way |
| Paths.WorkspacePathsStayUnder | internal/workspace/workspace.go:94-115 | manifest and SOPS file of a validated workspace lie under its root |
| Paths.ClusterYamlComponents | internal/workspace/workspace.go:94 | the manifest is the declared file, component by component, from the root on |
| Paths.SecretPathComponents | internal/workspace/workspace.go:113-115 | the SOPS file is the Secret name with ".sops.yaml" in the declared directory |
| Paths.SecretPathsCollide | internal/workspace/workspace.go:113-115 | tenants of one workspace share a file exactly if they share a Secret |
| Catalogs.ApplyDefaults | internal/workspace/workspace.go:329-363 | set fields are kept, empty ones filled in; the cluster name is derived exactly if the pod is a name, a hyphen and digits |
| Catalogs.DefaultsAreUnique | internal/workspace/workspace.go:329-363 | defaults leave no choice and are idempotent |
| Catalogs.LoadCatalog | internal/workspace/workspace.go:189-251 | for every iteration order: loads exactly if every declared cluster is acceptable and the default is one of them |
| Catalogs.LoadingIsDeterministic | internal/workspace/workspace.go:218-251 | the result is the same for every iteration order |
| Catalogs.AcceptableIff | internal/workspace/workspace.go:228-246 | which declared clusters are accepted, in terms of what the marker says of them |
| Catalogs.LoadedKeepsConfig | internal/workspace/workspace.go:207-246 | a loaded cluster keeps its configuration and is complete; a flat marker becomes the cluster "default" |
| Catalogs.DefaultIsDeclared | internal/workspace/workspace.go:218-250 | a named default is kept and must be declared; several clusters need one |
| Catalogs.LoadedIsSelectable | internal/workspace/workspace.go:254-266 | the empty ID selects the default cluster, every declared ID its own, and no other ID anything |
| Catalogs.CatalogStaysUnderRoot | internal/workspace/workspace.go:230-246 | every workspace of a clusters section keeps its manifest and SOPS files under the root |
| Catalogs.NewClusterRegistry | internal/web/clusters.go:41-67 | accepts exactly the non-empty lists of distinct non-empty IDs with a resolvable default |
| Catalogs.BuildClusterRegistry | cmd/cnpgctl/deps.go:34-65 | every loaded catalog gives a registry with the same IDs, default and workspaces |
| Backups.FilterInPlace | internal/cnpg/backup.go:53-73 | compaction over its own array is the functional filter |
| Backups.ListBackups | internal/cnpg/backup.go:53-73 | exactly the backups of the cluster, newest first |
| Backups.LatestOfCluster | internal/cnpg/backup.go:53-85 | listing then picking gives a completed backup of the cluster with the greatest start time, or the zero backup exactly if there is none, whatever order ties take |
| SecretYaml.ParseSecretPassword | internal/tenant/provision.go:127-142 | the first password line with a non-empty value, without quotes at its ends |
| SecretYaml.PasswordRoundTrip | internal/tenant/provision.go:127-163 | for every password: read back from the built text exactly if it is in the domain |
| SecretYaml.BuiltLines | internal/tenant/provision.go:150-163 | the written Secret line by line: type, name and namespace, user and password |
| SecretYaml.RequotedPassword | internal/tenant/provision.go:127-142 | a generated password survives any re-quoting of its scalar |
| SecretYaml.ParsedShape | internal/tenant/provision.go:127-142 | no text at all is read as a password that is empty, spans lines or has quotes at its ends |
| SecretYaml.GeneratedIsSafe | internal/tenant/tenant.go:69-75 | every generated password is in the domain |
| SecretYaml.EncodingIsInjective | internal/tenant/tenant.go:69-75 | different random bytes give different passwords |
| SecretYaml.EncodingVectors | internal/tenant/tenant.go:74 | a test vector of RFC 4648, section 10, and one with both letters of the URL-safe alphabet |
| ConnStrings.DecimalDenotes | internal/connstr/connstr.go:107-116 | the digits of the port denote it |
| ConnStrings.LibpqRoundTrip | internal/connstr/connstr.go:107-151 | for plain host, database and user, the conninfo rules give back all five fields exactly if the password is quoted or has no white space |
| ConnStrings.PsqlCommandReads | internal/connstr/connstr.go:137-158 | a POSIX shell reads exactly the intended words for every password |
| Sql.LiteralReadsBack | internal/pg/sql.go:67-69 | the escaped literal decodes to the text and stops at its closing quote |
| Sql.EnsureRoleBlockEnds | internal/tenant/provision.go:201-215 | the DO block ends where intended exactly if the password has no $$ |
| Sql.EnsureRoleLiterals | internal/tenant/provision.go:201-215 | both literals of the block decode to the password |
| Sql.CreatesRole | internal/tenant/provision.go:206-207 | the name read after CREATE ROLE is the tenant's |
| Sql.AltersRole | internal/tenant/provision.go:208-210 | so is the name read after ALTER ROLE |
| AtomicWrite.Directory.WriteEncryptedAtomic | internal/sops/encrypt.go:74-109 | nil replaces the destination, an error leaves it, and at no moment does the directory show a part of the new text under the destination's name |

## Left out

- Verbs.PgDumpRestore: the shell pipeline runs without pipefail, so its status is pg_restore's alone. That pg_restore fails on a stream pg_dump did not finish is assumed; Verbs.Sync, Verbs.Branch, Overwrites.SyncDelivers and Overwrites.BranchDelivers rest on it. For the pipe between two pods the statuses are modelled apart (Stream).
- HTTP handlers, UI, the command line, logging and `nil` dependencies: plumbing with no invariant of its own.
- Kubernetes, SPDY, psql, pg_dump, pg_restore and the operator's internals: each is a command that takes effect or is refused, plus faults. Refusals of the server that the model does not know (reserved role names, say) count as faults.
- SOPS and age cryptography and the YAML encoder: decrypting what was encrypted and decoding what was encoded give back keys, scalar values and the node tree; only re-quoting of a scalar is allowed for. Node pointers and their aliasing inside yaml.v3 are modelled on values; only the two slice compactions are done on arrays.
- Unicode: strings are sequences of ASCII characters, white space is ASCII white space, and lengths are counted in characters.
- A namespace that contains a newline: the code does not check it, no Kubernetes namespace has one, and `Agreement.Resolved` excludes it.
- Concurrent verbs on one workspace: the code takes no lock and promises nothing. Only the operator and the two goroutines of the pipe run beside a verb.
- The operator creating missing roles, or acting on the live Cluster resource instead of the Secret.
- Loading into a destination that already has contents: what pg_restore then does is left open (`loaded`), and only the empty destination has a result.
- What the client library still copies from the pipe after pg_restore's Exec returned is taken to be one chunk at most, since handing it on fails.
- Wall-clock limits: polling stops after a number of probes; the clock's low bits are a parameter.
- The checks of the base cluster's spec in CreateRecoveryCluster: such an error counts as a failing creation before its effect.
- Error texts: an error is told apart only where the program branches on it.
- `ClusterRegistry.IDs` and `Catalog.IDs` as sorted lists: the proofs hold for every order of the IDs.
- URL, Prisma and JDBC rendering, and buildDatabaseURL's escaping: the work is done by net/url. The DSN is kept by its parts.
- List, Status, AdminList, FormatBytes and backup triggering: easy branches.
