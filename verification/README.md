# Rheo core: a verified model

This project models the stateful core of the Rheo server in Dafny and proves what its protocols keep.
`dafny verify dfyconfig.toml` checks the whole project.

- **Workspace provisioning** (`Provisioning.dfy`, `ProvisioningOutcomes.dfy`, `ProvisioningRuns.dfy`). The five-step walk over the
  control plane and the workspace databases, `repair`, and the migration loop: first as the sequential
  programs on a class of tables, then as a machine in which any number of walkers and migrations take
  one committed transaction at a time, each process of one of several releases, and may stop between any two.
- **Dispatch** (`OperationRegistry.dfy`, `UnitOfWork.dfy`, `Dispatch.dfy`, `CoreOperations.dfy`).
  Registration and authorization, the unit of work, `dispatch`, and the status and settings operations.
  A handler is a function of its context, the deployment layer, the open transaction's contents and its
  input. Isolation is proved for any registered handlers, with dispatches of all workspaces interleaved.
- **Sessions and grants** (`Sessions.dfy`). The session tables and the login, continue, logout and switch
  requests, each of two transactions, on any hosts at once.
- **Settings** (`SettingsSchema.dfy`, `SettingsResolver.dfy`). The text codec, the layered resolution
  with its policy floor, and the write path.
- **Tokens** (`TokenFormat.dfy`, `Tokens.dfy`). The rendered form (base64url, section 5 of RFC 4648),
  the package sets, issue, revocation, presentation, and runs of them under changing memberships.
- **Algorithms**. The engine pool (`EnginePool.dfy`), the identifier generator (`UuidGenerator.dfy`,
  sections 5.7 and 6.2 of RFC 9562), the comment blankers (`CommentBlanker.dfy`), the reference parsers
  and the scope matcher (`References.dfy`, `Uuid.dfy`), and the first login under its lock
  (`Accounts.dfy`). `Text.dfy` holds the string operations they share.

Beside each such function stand theorems that state the operation's effect and its refusals in terms of
the tables and the call alone.

A class whose methods change its fields stands for code that changes tables or objects; each such method
is proved equal to a function on the state's value, and the theorems over whole runs are about those
functions. A machine's `Next` applies the same functions one transaction at a time.

Where the code and its own comments differ, the model follows the code:

- `tokens/sets.py` and `tokens/issue.py` say that a named package set never holds a non-issuable name.
  `read_only` takes every operation registered as a read, so it would hold one that was so registered;
  the strip at issue is what keeps the rule (`TokenSets.PackageSetsAndTheSix`, and for such a registration
  `TokenSets.ReadOnlyCanHoldOne`).
- `refs/uuid7.py` says that increments cannot disturb the version or the variant before 2^62 of them in a
  millisecond. The bound depends on the random start: `UuidGenerator.IncrementsKeepShape` gives it
  exactly, and `UuidGenerator.TwoCallsCanSpill` two calls that lose the variant.
- `settings/schema.py` calls `encode_text` the inverse of `decode_text`. It is on every value that
  decoding returns, and not on a list whose items are empty, untrimmed or hold a comma, which the write
  path accepts (`SettingsSchema.CodecRoundTrip`, `SettingsWritePath.UncleanItemComesApart`).

## Model

| member | source | states |
|---|---|---|
| WorkspaceTables.DatabaseNamesDiffer | packages/core/src/rheo_core/storage/provisioning.py:79-83 | two workspaces have the same database name exactly when they are the same workspace |
| Provisioner.Backend.SetWorkspaceState | packages/core/src/rheo_core/storage/control_plane.py:290-331 | a state write is a compare-and-set when expected states are given; the two refusals leave the tables alone |
| Provisioner.Backend.DoInsertRow | packages/core/src/rheo_core/storage/provisioning.py:147-188 | step 1 commits the row and its owner together; a retry is accepted only for the owner of a provisioning row; a taken slug or unknown account is refused |
| Provisioner.Backend.DoCreateDatabase | packages/core/src/rheo_core/storage/provisioning.py:191-207 | step 2 creates the database when it is missing, refuses an existing one of a row that is not provisioning, and then records the step |
| Provisioner.Backend.DoRunChain | packages/core/src/rheo_core/migrations/orchestrator.py:144-171 | a chain ends at head, or refuses a database that records an unknown revision, or raises, before that comparison (connection, wrong database, no transaction) or out of a revision; only success gives a changed database |
| Provisioner.Backend.DoMigrateCore | packages/core/src/rheo_core/storage/provisioning.py:210-222 | step 3 commits the chain and the composition row together and then records the step; a failed chain leaves everything |
| Provisioner.Backend.InsertDefaults | packages/core/src/rheo_core/storage/provisioning.py:225-238 | the loop of step 4 adds every default that is absent and overwrites nothing |
| Provisioner.Backend.DoWriteDefaultSettings | packages/core/src/rheo_core/storage/provisioning.py:225-238 | step 4 commits the defaults into the workspace database and then records the step |
| Provisioner.Backend.DoStep | packages/core/src/rheo_core/storage/provisioning.py:262-280 | each named step runs its own transaction or transactions |
| Provisioner.Backend.Walk | packages/core/src/rheo_core/storage/provisioning.py:255-280 | a walk runs its steps in order up to the first that is refused, and leaves what those steps left |
| Provisioner.Backend.Provision | packages/core/src/rheo_core/storage/provisioning.py:283-306 | `provision` is the walk of all five steps |
| Provisioner.Backend.Repair | packages/core/src/rheo_core/storage/provisioning.py:309-348 | `repair` leaves an active row alone, resumes a provisioning row after its recorded step, replays the chain for an unavailable one, and refuses the other states |
| Provisioner.Backend.MigrateWorkspace | packages/core/src/rheo_core/migrations/orchestrator.py:200-252 | a migration writes the database or, when the chain fails, the row, never both |
| Provisioner.Backend.MigrateActiveWorkspaces | packages/core/src/rheo_core/migrations/orchestrator.py:255-262 | the loop gives one result for each workspace listed, in order, and its effect is the effects one after another |
| Provisioner.MigrationLoop | packages/core/src/rheo_core/migrations/orchestrator.py:200-262 | every workspace listed active ends at head with its row unwritten, or exactly as before with its row unavailable and the reason; no other workspace changes |
| Provisioner.SweepVisits | packages/core/src/rheo_core/migrations/orchestrator.py:255-262 | what the loop did to its k-th workspace is what one chain run on the starting database does |
| ProvisioningOutcomes.CreateOutcome | packages/core/src/rheo_core/storage/provisioning.py:191-207 | step 2 creates a missing database and keeps one that is there; it is refused for an existing database of a row that is not provisioning, and for a row in another state |
| ProvisioningOutcomes.RepairOutcome | packages/core/src/rheo_core/storage/provisioning.py:309-348 | in terms of the tables and the request alone: repairing an unavailable row ends active at the head, version and defaults of the release that repairs, or is refused for the chain's own reason with nothing changed; a provisioning row is resumed where its recorded step says, an active one left alone, every other one refused |
| ProvisioningOutcomes.ProvisionOutcome | packages/core/src/rheo_core/storage/provisioning.py:147-306 | a new workspace is refused for a slug in use or an unknown owner, and otherwise has its row, owner and database, and is active at the release's head exactly when the chain ends there; an existing one is continued for its own owner and refused for anyone else |
| ProvisioningRuns.NextKeepsInv | packages/core/src/rheo_core/storage/provisioning.py:128-348 | any one transaction of any walker or migration, of any release, or a stop, keeps the joint invariant: rows, walkers and migrations all imply the facts of the steps behind them, the schema at a head and the composition of a release that ran among them |
| ProvisioningRuns.RunKeepsInv | packages/core/src/rheo_core/storage/provisioning.py:128-348 | the invariant holds after every interleaving, and rows, memberships and database facts are never taken back |
| ProvisioningRuns.ActiveMeansComplete | packages/core/src/rheo_core/storage/provisioning.py:128-348 | in every reachable state an active or unavailable row has its owner, its database, the revisions of a head and the composition version that releases of the run committed, and every default setting of a release of the run |
| ProvisioningRuns.ActiveMeansAtHead | packages/core/src/rheo_core/storage/provisioning.py:128-348 | where one release ran, active means exactly at its head, with its version and all its defaults |
| ProvisioningRuns.OwnerIsForever | packages/core/src/rheo_core/storage/provisioning.py:147-188 | the owner committed with the row stays its only member, whatever retries ask for |
| ProvisioningRuns.OnlyOwnersProvision | packages/core/src/rheo_core/storage/provisioning.py:178-188 | in every interleaving a `provision` that has passed its first step was called for the owner committed with the row |
| ProvisioningRuns.WalkersSpareActive | packages/core/src/rheo_core/storage/provisioning.py:128-252 | no step of a walker, however late, writes an active row |
| ProvisioningRuns.OnlyWalkersActivate | packages/core/src/rheo_core/storage/provisioning.py:241-252 | a row becomes active only by the last step of a walker of its own, out of provisioning |
| ProvisioningRuns.ActiveUntilMigrationFails | packages/core/src/rheo_core/migrations/orchestrator.py:200-252 | over every run, migrations included, an active row changes only because a migration marked it after its chain had failed on that workspace's own database |
| ProvisioningRuns.HeldFailureIsReal | packages/core/src/rheo_core/migrations/orchestrator.py:222-236 | the failure a migration is about to record is that of a chain it ran, at an action of the run, on that workspace's database |
| ProvisioningRuns.AheadIsNeverUpgraded | packages/core/src/rheo_core/migrations/orchestrator.py:159-171 | over any run of releases that do not know a revision recorded in a database, by walkers or migrations, its revisions and composition never change |
| ProvisioningRuns.NamedRowsAreDistinct | packages/core/src/rheo_core/storage/provisioning.py:79-83 | in every reachable state rows have distinct databases |
| ProvisioningRuns.ReachableMigrationLoop | packages/core/src/rheo_core/migrations/orchestrator.py:200-262 | from every reachable state the loop leaves each listed workspace at head with its row unwritten, or as before and marked with the reason, and all others as they were |
| ProvisioningRuns.DriveIsRepair | packages/core/src/rheo_core/storage/provisioning.py:316-348 | the transaction-by-transaction walk of an undisturbed repair is the sequential `repair`: the same tables, and the same success or refusal |
| ProvisioningRuns.DriveIsProvision | packages/core/src/rheo_core/storage/provisioning.py:283-306 | the transaction-by-transaction walk of an undisturbed `provision` is the sequential one, refusal included |
| ProvisioningRuns.DriveIsMigration | packages/core/src/rheo_core/migrations/orchestrator.py:200-262 | the transaction-by-transaction run of an undisturbed migration is the sequential loop |
| ProvisioningRuns.WalkFinishes | packages/core/src/rheo_core/storage/provisioning.py:255-280 | from any step whose predecessors are done, the rest of the walk ends in `active` when the chain succeeds |
| ProvisioningRuns.RepairConverges | packages/core/src/rheo_core/storage/provisioning.py:309-348 | from every reachable provisioning or unavailable row one undisturbed repair whose chain succeeds ends in `active` and complete, keeps every existing setting, touches no other workspace, and a second repair does nothing; where the chain had still to run, the database is at the head and version, with the defaults, of the release that repaired |
| UnitsOfWork.UnitOfWork.Enter | packages/core/src/rheo_core/storage/backend.py:82-101 | a unit is entered once; a failed connection or a name mismatch leaves it unentered |
| UnitsOfWork.UnitOfWork.Work | packages/core/src/rheo_core/storage/backend.py:120-129 | statements are refused unless a transaction is open |
| UnitsOfWork.UnitOfWork.Commit | packages/core/src/rheo_core/storage/backend.py:131-136 | a commit makes the working contents permanent in that one database, or fails and changes nothing; either way the transaction is over |
| UnitsOfWork.UnitOfWork.Rollback | packages/core/src/rheo_core/storage/backend.py:138-143 | a rollback drops the transaction, and is refused when there is none |
| UnitsOfWork.UnitOfWork.Exit | packages/core/src/rheo_core/storage/backend.py:103-118 | leaving drops whatever is still open |
| UnitsOfWork.CommitsAtMostOnce | packages/core/src/rheo_core/storage/backend.py:59-143 | whatever is called on a unit, in whatever order, at most one commit takes effect, and without one the database keeps what it had |
| UnitsOfWork.CommitOrigin | packages/core/src/rheo_core/storage/backend.py:59-143 | what a unit commits is what its statements made of the contents it found on entering, in one transaction that nothing ended before that commit |
| UnitsOfWork.WorkIsKept | packages/core/src/rheo_core/storage/backend.py:59-143 | a unit that is entered, worked on and committed makes that work permanent |
| UnitsOfWork.ClosedForEver | packages/core/src/rheo_core/storage/backend.py:59-143 | once closed, a unit refuses everything and changes nothing ever again |
| OperationRegistry.Registry.Register | packages/core/src/rheo_core/operations/registry.py:170-221 | a registration is accepted exactly when name, origin and input model are in order and the name is free or holds the same registration |
| OperationRegistry.RegistrationsAreSound | packages/core/src/rheo_core/operations/registry.py:93-121 | after any registrations a `core.` name came from the core origin and a `harness.` name from the test harness, no input model takes a reserved field or undeclared keys, and a registered name keeps its declaration |
| OperationRegistry.FreeNamesAreDecided | packages/core/src/rheo_core/operations/registry.py:73-121 | a free name is registered exactly when it is well formed, comes from its own module's origin (the harness's only in the test profile), and its input model takes no reserved field and no extra |
| OperationRegistry.NoHarnessInProduction | packages/core/src/rheo_core/operations/registry.py:81-90 | without the test profile nothing is ever registered from the test harness |
| Dispatch.Service.RunInUnit | packages/core/src/rheo_core/operations/dispatch.py:122-163 | inside the unit of work only a returned output of the declared type is committed; refusals, exceptions and wrong outputs roll back |
| Dispatch.Service.Dispatch | packages/core/src/rheo_core/operations/dispatch.py:91-164 | the statements of `dispatch` over a unit of work have exactly the effect and the reply of its specification, exceptions from entering included |
| Dispatch.AdmissionRefusals | packages/core/src/rheo_core/operations/registry.py:232-264 | each refusal before a database is opened is given exactly when its cause (context, name, operation set, module, role, payload) is the first one present, and what is admitted carries the payload's own values |
| Dispatch.DispatchRefusals | packages/core/src/rheo_core/storage/routing.py:28-65 | a call that may run is refused as unavailable exactly when its workspace has no row or one that is not active; entering raises exactly when the row's database is not reached, or by probe another is; none of these changes anything |
| Dispatch.AllOrNothing | packages/core/src/rheo_core/operations/dispatch.py:91-164 | a dispatch succeeds exactly when it passes, its workspace is active, its handler ran on that database and returned the declared type, and the commit went through; then the database is what the handler left, and in every other case nothing changed; each of the other replies is given exactly for its cause |
| DispatchRuns.OpenOrigin | packages/core/src/rheo_core/storage/routing.py:28-65 | over any run every dispatch under way was begun by an action of the run that could pass, when its workspace's row was active, and is routed to that row's database |
| DispatchRuns.WorkspacesAreIsolated | packages/core/src/rheo_core/storage/routing.py:28-65 | over any interleaving of dispatches, state changes and stops, one workspace's replies and final database are those of a run, from any system that agrees on it, in which it alone acted |
| DispatchRuns.UndisturbedDispatch | packages/core/src/rheo_core/operations/dispatch.py:91-164 | a dispatch begun and finished with nothing between is the sequential one |
| CoreOperations.LatestVersions | packages/core/src/rheo_core/operations/core_ops.py:153-156 | the loop over the applied steps computes the specification's map |
| CoreOperations.LatestIsLast | packages/core/src/rheo_core/operations/core_ops.py:153-156 | a module has a version exactly when a step was applied for it, and then the last one's |
| CoreOperations.StatusReply | packages/core/src/rheo_core/operations/core_ops.py:144-170 | a status call succeeds exactly for a permitted role in an active workspace with a composition, changes nothing, and lists that composition and the modules, each with the version of its last step |
| CoreOperations.SetSucceeds | packages/core/src/rheo_core/operations/core_ops.py:173-197 | `core.settings.set` succeeds exactly for an owner with a value that is declared, workspace-scoped, typed and within the deployment's floor, and replaces that one row |
| CoreOperations.SetRefusals | packages/core/src/rheo_core/operations/core_ops.py:173-197 | an owner's write that may not be made is refused under the name of the first cause present |
| CoreOperations.SetMemberSucceeds | packages/core/src/rheo_core/operations/core_ops.py:200-222 | `core.settings.set_member` succeeds exactly for an account with a value that may be written at that scope, and replaces that one row of the account's own |
| CoreOperations.SetThenRead | packages/core/src/rheo_core/operations/core_ops.py:173-197 | after a successful `core.settings.set` every reader resolves the written value exactly when its items survive the text form, and every other key as before |
| CoreOperations.SetMemberThenRead | packages/core/src/rheo_core/operations/core_ops.py:200-222 | after a successful `core.settings.set_member` that account resolves the written value exactly when its items survive the text form; every other reader, and every other key, resolves as before |
| CoreOperations.RowsChangeByTheirOwners | packages/core/src/rheo_core/operations/core_ops.py:184-222 | over any interleaving each change of what a workspace holds is the end of a dispatch begun there earlier; its settings change only by an owner's `core.settings.set`, an account's rows only by its own `core.settings.set_member`, and only under the key and to the value that the payload names |
| Sessions.Expiry | packages/core/src/rheo_core/sessions/service.py:52-62 | the deadline is the earlier of the idle and the absolute one |
| Sessions.SessionTables.CreateSession | packages/core/src/rheo_core/sessions/service.py:65-80 | creation leaves a row with the real deadline, never the placeholder |
| Sessions.SessionTables.MintHostSecret | packages/core/src/rheo_core/storage/control_plane.py:538-562 | a secret is stored only for an existing session without one on that host |
| Sessions.SessionTables.Touch | packages/core/src/rheo_core/sessions/service.py:99-110 | a touch rewrites the last use and the deadline, and nothing else, of a session that exists |
| Sessions.SessionTables.Revoke | packages/core/src/rheo_core/storage/control_plane.py:513-519 | revocation is stamped on the row |
| Sessions.SessionTables.SwitchWorkspace | packages/core/src/rheo_core/sessions/service.py:121-149 | a switch needs a membership of the session's account in the target |
| Sessions.SessionTables.WriteGrant | packages/core/src/rheo_core/sessions/grants.py:33-50 | a grant is written once for its code, unused, for sixty seconds |
| Sessions.SessionTables.ConsumeGrant | packages/core/src/rheo_core/storage/control_plane.py:642-671 | a grant is consumed only when unused, unexpired, on its host and with its nonce; otherwise nothing changes and one refusal is given |
| Sessions.TouchRevives | packages/core/src/rheo_core/sessions/service.py:99-110 | an expired session comes back by a touch exactly when an idle window is left and the absolute deadline has not passed |
| SessionRuns.PendingOrigin | apps/core/src/rheo_app_core/auth_routes.py:242-384 | a request between its two transactions was begun by an action of the run, and has had that one thing left to do since |
| SessionRuns.GrantOrigin | apps/core/src/rheo_app_core/auth_routes.py:276-341 | every grant was written for a request that the identity host began, with a secret of that session live there, towards another application host |
| SessionRuns.RunGrows | packages/core/src/rheo_core/sessions/service.py:65-149 | over any run sessions keep account, creation time and revocation, secrets stay as minted, and grants keep everything but one use |
| SessionRuns.CodesAreSingleUse | packages/core/src/rheo_core/storage/control_plane.py:642-671 | over any run no two actions consume one code |
| SessionRuns.SwitchNeedsMembership | packages/core/src/rheo_core/sessions/service.py:121-149 | no action changes a session's workspace except to one its account is a member of at that moment |
| SessionRuns.SecretsAreEntitled | apps/core/src/rheo_app_core/auth_routes.py:242-341 | every secret was minted by a request that its host began by running the callback, or by consuming, with the matching nonce and less than sixty seconds after it was written, a grant written earlier in the run for a request that the identity host began with a live secret of the same session; one secret at most for each session and host |
| SessionRuns.RevokedForEver | packages/core/src/rheo_core/sessions/service.py:113-118 | once a session is revoked no secret of it, on any host and whenever minted, yields a context |
| SessionRuns.LogoutIsFinal | packages/core/src/rheo_core/sessions/service.py:113-118 | once a logout begun with a live secret is finished, whatever happened in between and happens after, its session is revoked and no secret of it, on any host and whenever minted, yields a context or begins a request |
| SessionRuns.RevocationOrigin | apps/core/src/rheo_app_core/auth_routes.py:347-384 | a session is revoked only by the end of a logout that was begun with a live secret of it |
| SessionRuns.LoginGivesContext | apps/core/src/rheo_app_core/auth_routes.py:242-281 | a callback, its secret and a choice of workspace give exactly the context of that account in that workspace, under its role and modules, until the deadline of the policy; without a membership none |
| SessionRuns.HopGivesSameContext | apps/core/src/rheo_app_core/auth_routes.py:284-341 | a grant asked for with a live secret on the identity host and consumed on its target in time gives the target a secret that yields what the first one yields |
| SessionRuns.DeadlinesAreBounded | packages/core/src/rheo_core/sessions/service.py:52-62 | every deadline ever written is within the creation time plus the largest absolute limit in force |
| SessionRuns.NoContextPastTheBound | packages/core/src/rheo_core/boundary/factories.py:188-250 | no context is given from the creation time plus the largest absolute limit in force onward, however often the session is touched |
| SessionRuns.ContextTracesToLogin | packages/core/src/rheo_core/boundary/factories.py:188-250 | a context names the account whose login action created the session, with its present role in the present active workspace, under a secret minted for an entitled host, before the deadline and unrevoked |
| SettingsSchema.ListRoundTrip | packages/core/src/rheo_core/settings/schema.py:238-290 | a list is read back as written exactly when its items are non-empty, trimmed and comma-free |
| SettingsSchema.CodecRoundTrip | packages/core/src/rheo_core/settings/schema.py:238-290 | at all four types encoding then decoding is the identity exactly on the values that decoding can return |
| SettingsSchema.DecodedIsStorable | packages/core/src/rheo_core/settings/schema.py:238-275 | decoding returns only values of the declared type and choices, with clean items |
| SettingsSchema.DecodeEncodeDecode | packages/core/src/rheo_core/settings/schema.py:238-290 | decode, encode, decode is decode on every accepted text |
| SettingsSchema.StripOfPadded | packages/core/src/rheo_core/settings/schema.py:238-275 | stripping takes the spaces off both ends and nothing else |
| SettingsSchema.BoolSpellings | packages/core/src/rheo_core/settings/schema.py:238-275 | a flag is read from exactly the eight words, in any case, between any spaces |
| SettingsSchema.SignedSpelling | packages/core/src/rheo_core/settings/schema.py:238-275 | a number is read with either sign, between any spaces |
| SettingsSchema.UnsignedSpelling | packages/core/src/rheo_core/settings/schema.py:238-275 | and without a sign |
| SettingsResolver.FloorIsMeet | packages/core/src/rheo_core/settings/resolver.py:148-189 | for all four comparators the read-time floor is the meet of the order the write-time test defines |
| SettingsResolver.NoLooserIsPreorder | packages/core/src/rheo_core/settings/resolver.py:171-189 | that order is reflexive and transitive |
| SettingsResolver.Table.ApplyRow | packages/core/src/rheo_core/settings/resolver.py:200-215 | a row for an undeclared key, another scope or bad text is ignored; any other replaces its key, under the floor if there is one |
| SettingsResolver.Table.ApplyRows | packages/core/src/rheo_core/settings/resolver.py:192-215 | a pass over the rows gives each key the value its own row decides, in whatever order the rows come |
| SettingsResolver.Resolve | packages/core/src/rheo_core/settings/resolver.py:233-266 | `resolve` makes the workspace pass and, only then, the member pass, over the base values |
| SettingsResolver.ResolvedValue | packages/core/src/rheo_core/settings/resolver.py:192-266 | without an applicable row of good text a key resolves to the deployment layer's value, or to its default where that layer has none; otherwise to the row's value under the floor of that same value |
| SettingsResolver.ResolutionIsSafe | packages/core/src/rheo_core/settings/resolver.py:192-266 | for arbitrary row text exactly the declared keys come out, typed; a deployment-scope key has the deployment layer's value or its default; a floored key is no looser than that |
| SettingsResolver.RowsActKeywise | packages/core/src/rheo_core/settings/resolver.py:192-215 | workspace and member rows that agree on a key give it the same value, whatever else they hold |
| SettingsWritePath.RefusalCauses | packages/core/src/rheo_core/settings/write_path.py:54-98 | each of the four refusals is given exactly when its cause is the first one present, and an override is accepted exactly when none is |
| SettingsWritePath.AcceptedReadsBack | packages/core/src/rheo_core/settings/write_path.py:54-98 | an accepted override reads back as the same value (the same set, for a floored list) exactly when its items survive the text form |
| SettingsWritePath.ListReadsBack | packages/core/src/rheo_core/settings/write_path.py:54-98 | the list case of that, for the unfloored, `subset` and `union` keys |
| SettingsWritePath.UncleanItemComesApart | packages/core/src/rheo_core/settings/write_path.py:54-98 | at a `union` key any extra item that is empty, untrimmed or holds a comma is accepted, and a reader sees the pieces of its text instead |
| SettingsWritePath.CommaItemIsSplit | packages/core/src/rheo_core/settings/write_path.py:54-98 | a concrete such item: one with a comma, accepted at a `union` key and read back as two |
| TokenSets.CollectPermitted | packages/core/src/rheo_core/tokens/issue.py:129-149 | the loop collects exactly the operations open to a role |
| TokenSets.CollectReadOnly | packages/core/src/rheo_core/tokens/sets.py:103-113 | the loop collects exactly the operations registered as reads |
| TokenSets.PackageSetsAndTheSix | packages/core/src/rheo_core/tokens/sets.py:103-137 | two package sets never hold a non-issuable name; `read_only` holds one exactly when such an operation is registered as a read |
| Tokens.WorkspaceCannotExtend | packages/core/src/rheo_core/tokens/issue.py:239-241 | the lifetime is the deployment layer's days for the kind, or the declared default without one, and a workspace's row can only shorten it |
| Tokens.TokenTables.IssuerBound | packages/core/src/rheo_core/tokens/issue.py:179-224 | a session issues for its own account and role, an operator for a named member within the package sets and that member's role |
| Tokens.TokenTables.Issue | packages/core/src/rheo_core/tokens/issue.py:227-267 | issue writes one row with the surviving snapshot and the resolved lifetime, or refuses and writes nothing |
| Tokens.TokenTables.RevokeToken | packages/core/src/rheo_core/tokens/issue.py:270-302 | revocation is refused alike for a missing token, one of another workspace, and another account's |
| Tokens.TokenTables.ResolveToken | packages/core/src/rheo_core/tokens/presentation.py:77-116 | the refusal chain in its order; only a success touches the row |
| Tokens.SurvivorsAreBounded | packages/core/src/rheo_core/tokens/issue.py:152-236 | a granted snapshot is not empty, holds none of the six names, and lies within the request and the target's role |
| Tokens.SurvivorsAreExact | packages/core/src/rheo_core/tokens/issue.py:129-236 | what survives an issue is exactly the names asked for (a list, the registered reads, the tools' operations, or every operation) that are registered, open to the target's role and none of the six |
| Tokens.IssueRefusals | packages/core/src/rheo_core/tokens/issue.py:152-236 | each of the five refusals of an issue is given exactly when its cause is the first one present; nothing survives exactly when the target's role may carry no name asked for |
| Tokens.IssuedRow | packages/core/src/rheo_core/tokens/issue.py:227-267 | an issue succeeds exactly for a good selection, a target with a role, something to carry and free draws; the row it adds carries exactly the names the target's role may carry, for the target, the workspace and the kind, until the resolved lifetime |
| Tokens.OperatorUnionIsRoleBound | packages/core/src/rheo_core/tokens/issue.py:199-224 | an operator's grant is the request within the member's role and outside the six: the union of the package sets takes nothing more away |
| Tokens.TokenRefusals | packages/core/src/rheo_core/tokens/presentation.py:77-110 | each refusal of a presented value is given exactly when its cause is the first one present |
| Tokens.IssuedValueIsAccepted | packages/core/src/rheo_core/tokens/presentation.py:77-116 | the value an issue renders leads to the token issued, and is accepted under any later memberships exactly on the surfaces of its kind, before its deadline, for a member; its context is then confined to the snapshot, under the member's role of that moment |
| TokenRuns.TokensCannotIssue | packages/core/src/rheo_core/tokens/presentation.py:98-100 | in every reachable state a request authorized for one of the six holds a context that did not come from a token |
| TokenRuns.HeldOrigin | packages/core/src/rheo_core/boundary/factories.py:253-286 | every context held was given by an action of the run that let the request in, under the memberships and the token row of that moment, and has been held unchanged since |
| TokenRuns.RunGrows | packages/core/src/rheo_core/tokens/issue.py:227-302 | over any run token rows keep everything but their revocation and last use |
| TokenRuns.TokensStayInScope | packages/core/src/rheo_core/tokens/presentation.py:77-116 | over any run, rows inserted from outside included, whatever is authorized under a token is in its stored snapshot, none of the six, and open to the role that its account had when the very presentation that gave this context was let in |
| TokenRuns.IssuedWithinRole | packages/core/src/rheo_core/tokens/issue.py:227-267 | every token not put in from outside was written, under a free id, by an issue authorized for a request that held no token; its snapshot is not empty, holds none of the six, and lies within what the memberships allowed its account at an operator's issue or at the entry that gave the account's own context |
| TokenRuns.LifetimeIsTheDeployments | packages/core/src/rheo_core/tokens/issue.py:239-241 | no issued token is accepted from the issue that wrote it plus the deployment layer's days for its kind, as of that action, onward, whatever the workspace's rows say |
| TokenRuns.OnlyOwnersRevoke | packages/core/src/rheo_core/tokens/issue.py:270-302 | a token is revoked exactly when an authorized operator or its own account asks for it from its workspace; never under a token |
| TokenRuns.RevocationIsFinal | packages/core/src/rheo_core/tokens/issue.py:270-302 | after such a revocation and any further run the token is refused on every surface |
| TokenRuns.PresentEnters | packages/core/src/rheo_core/tokens/presentation.py:77-116 | a presentation lets its request in exactly when the value yields a context; an accepted value has its use noted in its row, and nothing else is written |
| TokenRuns.IssueThenPresent | packages/core/src/rheo_core/tokens/issue.py:227-267 | from issue to use: the value issued lets a request in exactly on the surfaces of its kind, before its deadline, for a member of an active workspace, and that request may run exactly the names the token may carry that the account's role and the enabled modules allow |
| TokenRuns.RevokedStaysRevoked | packages/core/src/rheo_core/tokens/presentation.py:96-97 | a revoked token is refused after any further run |
| TokenFormat.DecodeOfEncode | packages/core/src/rheo_core/tokens/format.py:39-69 | decoding undoes encoding for every byte string |
| TokenFormat.DecodePreimage | packages/core/src/rheo_core/tokens/format.py:50-69 | a text decodes to given bytes exactly when it is their encoding up to the two unused bits |
| TokenFormat.EncodeIsBigEndian | packages/core/src/rheo_core/tokens/format.py:39-69 | three bytes and their four characters are one number, in base 256 and in base 64, and likewise the one or two bytes left over |
| TokenFormat.EveryMatchParses | packages/core/src/rheo_core/tokens/format.py:50-69 | every text of the right shape decodes to 32 bytes, so the length check never refuses |
| TokenFormat.ParseOfMint | packages/core/src/rheo_core/tokens/format.py:39-69 | parsing undoes minting exactly for the kinds that the pattern admits |
| TokenFormat.AcceptedSpellings | packages/core/src/rheo_core/tokens/format.py:50-69 | for each value and kind exactly the four spellings are accepted |
| TokenFormat.SpellingsDiffer | packages/core/src/rheo_core/tokens/format.py:50-69 | the four spellings are distinct and differ in the last character alone; the minted text is one of them |
| LruOrder.HoldsMostRecent | packages/core/src/rheo_core/storage/pools.py:50-71 | evicting one at a time keeps exactly the most recently used distinct keys, in order of last use |
| EnginePool.Pool.CreatePool | packages/core/src/rheo_core/storage/pools.py:36-44 | a pool exists exactly for positive sizes |
| EnginePool.WorkspaceNamesAreValid | packages/core/src/rheo_core/storage/pools.py:22-33 | every workspace's database name passes the pool's check |
| EnginePool.Pool.EngineFor | packages/core/src/rheo_core/storage/pools.py:50-71 | the name becomes the most recent, its engine is returned, its own and the same on a hit; every engine ever created is cached or was disposed once, never both |
| EnginePool.Pool.MoveToEnd | packages/core/src/rheo_core/storage/pools.py:54-57 | a hit reorders and does nothing else |
| EnginePool.Pool.Create | packages/core/src/rheo_core/storage/pools.py:58-71 | a miss creates one engine and evicts the oldest ones beyond the size |
| EnginePool.Pool.CachedNames | packages/core/src/rheo_core/storage/pools.py:73-76 | the names that hold a live engine of their own, each once, no more than the size, least recent first |
| EnginePool.Pool.DisposeAll | packages/core/src/rheo_core/storage/pools.py:78-83 | afterwards nothing is cached and every engine was disposed exactly once |
| EnginePool.PoolHoldsMostRecent | packages/core/src/rheo_core/storage/pools.py:50-71 | touching valid names one at a time keeps the last distinct ones, least recent first |
| EnginePool.CallInTurn | packages/core/src/rheo_core/storage/pools.py:50-71 | after any calls on a pool it holds the last distinct valid names, least recent first, and every engine created is cached or was disposed once |
| UuidGenerator.Generator.Mint | packages/core/src/rheo_core/refs/uuid7.py:18-38 | the byte edits and the comparison compute the next value and issue it |
| UuidGenerator.FreshShape | packages/core/src/rheo_core/refs/uuid7.py:28-32 | a drawn value has version 7, variant 10 and the clock as its timestamp |
| UuidGenerator.StrictlyIncreasing | packages/core/src/rheo_core/refs/uuid7.py:33-38 | whatever the clock and the random source do, a later identifier is greater than every earlier one |
| UuidGenerator.NextTimestamp | packages/core/src/rheo_core/refs/uuid7.py:33-38 | one call leaves the later of the clock and the previous timestamp exactly when the draw is newer or the increment stays below the timestamp |
| UuidGenerator.TimestampIsRunningMaximum | packages/core/src/rheo_core/refs/uuid7.py:18-38 | over any run, of any length, the timestamp is always the greatest clock reading so far exactly when every call had that room |
| UuidGenerator.EarlyCallsTrackClock | packages/core/src/rheo_core/refs/uuid7.py:18-38 | the first 2^79 calls all have it, and issue an identifier for every encodable clock reading |
| UuidGenerator.IncrementsKeepShape | packages/core/src/rheo_core/refs/uuid7.py:19-26 | k increments keep version and variant exactly while the low 62 bits plus k stay below 2^62 |
| UuidGenerator.TwoCallsCanSpill | packages/core/src/rheo_core/refs/uuid7.py:19-26 | at any clock two calls whose random bits are all ones issue a well-shaped identifier and then one without the variant |
| UuidGenerator.NextKeepsShape | packages/core/src/rheo_core/refs/uuid7.py:33-38 | one call keeps the shape exactly when the draw is newer or the low field is not full |
| CommentBlanker.ScanLiteral | scripts/check_routing_literals.py:146-160 | the inner loop ends a literal where the tokeniser does |
| CommentBlanker.TsPiece | scripts/check_routing_literals.py:130-164 | one pass of the outer loop renders the token at hand |
| CommentBlanker.StripTsComments | scripts/check_routing_literals.py:115-165 | the TypeScript loop refines the recursive tokeniser |
| CommentBlanker.PyPiece | scripts/check_routing_literals.py:182-214 | one pass of the outer loop renders the token at hand |
| CommentBlanker.StripPyProse | scripts/check_routing_literals.py:168-215 | the Python loop refines the recursive tokeniser |
| CommentBlanker.CloseIsFirst | scripts/check_routing_literals.py:133-140 | a block ends with the first closing mark after its opening |
| CommentBlanker.LiteralEndIsFirst | scripts/check_routing_literals.py:115-215 | a literal ends at the first quote of its kind, or newline, that no odd run of backslashes escapes (between backquotes only the quote), or with the text |
| CommentBlanker.CommentsAreBlanked | scripts/check_routing_literals.py:115-215 | from a comment mark between tokens to the end of the line, or of the block, everything is blanked but newlines |
| CommentBlanker.TheRestIsKept | scripts/check_routing_literals.py:115-215 | where no comment opens, a quoted literal is kept up to what closes it, and any other character by itself |
| CommentBlanker.TokenwiseOutput | scripts/check_routing_literals.py:115-215 | every token comes out as its rendering at the same place |
| CommentBlanker.LiteralsVerbatim | scripts/check_routing_literals.py:115-215 | an ordinary string literal comes out letter for letter |
| CommentBlanker.LinesKept | scripts/check_routing_literals.py:115-215 | length and newline positions are kept, and each character is copied or blanked |
| CommentBlanker.OutputCommentFree | scripts/check_routing_literals.py:115-215 | the output holds no comment |
| CommentBlanker.Idempotent | scripts/check_routing_literals.py:115-215 | blanking twice is blanking once |
| Uuid.HexInjective | packages/core/src/rheo_core/storage/provisioning.py:79-83 | the 32-digit hexadecimal form tells identifiers apart |
| Uuid.ParseLooseOfCanonical | packages/contracts/src/rheo_contracts/refs.py:62-83 | the canonical text of an identifier reads back as it |
| RecordReferences.ParseInvertsFormat | packages/contracts/src/rheo_contracts/refs.py:62-83 | the parser accepts exactly what the printer writes for a valid reference, and undoes it |
| RecordReferences.CanonicalShape | packages/contracts/src/rheo_contracts/refs.py:62-83 | an identifier is printed as 36 characters, lower-case digits with four dashes at their places |
| SecretReferences.ParseInvertsText | packages/core/src/rheo_core/secrets/refs.py:79-94 | the parser accepts exactly what the printer writes for a valid reference, and undoes it |
| SecretReferences.SlugPathStaysInside | packages/core/src/rheo_core/secrets/refs.py:46-55 | a slug path has no empty and no dotted segment |
| SecretReferences.Permits | packages/core/src/rheo_core/secrets/scope.py:64-72 | the scan accepts exactly when the segments of some prefix begin the reference's, properly when the prefix ends in a slash |
| SecretReferences.CoveringIsSegmentwise | packages/core/src/rheo_core/secrets/scope.py:64-72 | the text comparison on one prefix is the segment comparison |
| SecretReferences.NoSiblingCovered | packages/core/src/rheo_core/secrets/scope.py:64-72 | a prefix never covers a sibling that starts with the same letters |
| Accounts.ControlPlane.ResolveOrCreate | packages/core/src/rheo_core/identity/accounts.py:34-86 | an identity gets its account, or a new one while signup is open; otherwise nothing changes |
| AccountRuns.RunKeepsInv | packages/core/src/rheo_core/identity/accounts.py:34-86 | what a login has read under the lock stays true until it is done, in every interleaving |
| AccountRuns.OneAccountPerIdentity | packages/core/src/rheo_core/identity/accounts.py:34-86 | two logins that succeed get the same account exactly when they bring the same identity, signup open or closed |
| AccountRuns.AtMostOneFirstAccount | packages/core/src/rheo_core/identity/accounts.py:34-86 | from an empty control plane with signup closed no interleaving creates a second account |
| AccountRuns.SignupClosedIsReal | packages/core/src/rheo_core/identity/accounts.py:34-86 | in any interleaving a login is turned away only if signup was closed at some moment and an account exists |
| LoginsInTurn.OpenSignupAdmitsAll | packages/core/src/rheo_core/identity/accounts.py:34-86 | from an empty control plane with signup open every identity gets one account, under the id and the name of its first login, and there are no others |
| LoginsInTurn.ClosedSignupAdmitsOne | packages/core/src/rheo_core/identity/accounts.py:34-86 | with signup closed only the very first login gets one |
| AccountRuns.UndisturbedLogin | packages/core/src/rheo_core/identity/accounts.py:34-86 | a login that nothing disturbs is the sequential program |

## Left out

- SQL, drivers and Alembic: tables are maps, an update with a condition is one atomic step, an advisory lock is mutual exclusion until the transaction ends, and a chain of revisions either ends at head or changes nothing.
- A commit whose outcome the client cannot know (the connection is lost while it is answered): a commit that raises is taken not to have happened.
- Two transactions on one workspace database that overlap statement by statement: a handler and its commit are one step, at the time of the commit. The handlers modelled here write one row with one statement.
- The unit of work keeps its working contents as a value; the repositories' upserts are updates of that value, without the `updated_by`, `value_type` and time columns.
- Provisioning's `after_step` callback: an exception from it is a walker that stops. The migration lock is not modelled; each chain run is one step.
- Members added and accounts created from the command line while walkers or logins run: they write outside the walker protocol and the account lock.
- What a revision changes inside a database beyond the recorded set, the composition row and the settings.
- HTTP, cookies, header parsing and origin checks, OAuth calls, the internal listener, the web tier, the command line, `doctor`, logging and file-system checks.
- The strength of SHA-256 and of the random draws: digests are taken to be injective, draws are arbitrary inputs, and a draw that collides with a stored one is refused as the unique constraints refuse it.
- Foreign keys from session, grant and token rows to accounts and workspaces: rows are written for identifiers that the same request has just read.
- Threads inside one process: `uuid7` and `EngineFor` are single steps. The pool's lock covers the lookup and the eviction but not the disposal after it, so between the two another thread can see an engine that is neither cached nor disposed; the accounting is stated for completed calls.
- Clock reads within one operation: one `now` for each transaction, so `created_at` of a token is its issue time.
- Python's extra integer spellings (underscores, non-ASCII digits), non-ASCII whitespace and case folding, and pydantic's coercions of a payload: plain decimal, ASCII, and values already of their type.
- The braced and URN spellings that Python's UUID constructor reads: every one fails the canonical comparison in the parser.
- The shape of a settings key's name and the settings registry's own registration rules: easy members.
- `route`, `url_for`, `normalize_host` and the other short string joins of the routes; workspace slugs derived from identifiers.
- The order by time of listings, and the timestamps of settings, composition and module rows.
- Contexts for the test harness, and the request id and audience of a context, which no decision reads.
