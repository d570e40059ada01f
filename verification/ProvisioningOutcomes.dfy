/** What `provision` and `repair` come to, in terms of the tables, the request and its release alone. */
module ProvisioningOutcomes {
  import opened Text
  import opened Uuid
  import opened WorkspaceTables
  import opened Provisioner

  /** The row is active, its database holds `db`, and nothing else changed. */
  predicate MadeActive(t: Tables, e: Effect, id: Id, db: Db)
    requires id in t.rows
  {
    && e.outcome == Done
    && e.after == t.(rows := t.rows[id := t.rows[id].(state := Active, detail := StepDone(Activate))],
                     databases := t.databases[t.rows[id].database := db])
  }

  /** A database that the release has upgraded: its head, its version, and its defaults beneath what was set. */
  function Upgraded(db: Db, code: Code): Db {
    Db(code.head, Some(code.version), map key | key in code.defaults.Keys + db.settings.Keys ::
      if key in db.settings then db.settings[key] else code.defaults[key])
  }

  /** A walk whose next step is the chain: all of the rest happens, or nothing does. */
  predicate UpgradesOrRefuses(t: Tables, e: Effect, id: Id, request: Request)
    requires id in t.rows
  {
    var db := DatabaseOf(t, id);
    if ChainReachesHead(db, request.code, request.fault) then MadeActive(t, e, id, Upgraded(db.value, request.code))
    else e.after == t && e.outcome.Refused? && FailsAs(db, request.code, request.fault, e.outcome.refusal)
  }

  // ---- walks from each step to the end ----

  lemma WalkUnfolds(t: Tables, id: Id, i: nat, request: Request)
    requires i < 5
    ensures var first := RunStep(t, id, PROVISION_STEPS[i], request);
      Walked(t, id, PROVISION_STEPS[i..], request) ==
        if first.outcome.Done? then Walked(first.after, id, PROVISION_STEPS[i + 1..], request) else first
  {
    var rest := PROVISION_STEPS[i..];
    assert rest[0] == PROVISION_STEPS[i] && rest[1..] == PROVISION_STEPS[i + 1..];
  }

  lemma WalkToActivate(t: Tables, id: Id, request: Request)
    requires id in t.rows && t.rows[id].state == Provisioning
    ensures var e := Walked(t, id, PROVISION_STEPS[4..], request);
      && e.outcome == Done
      && e.after == t.(rows := t.rows[id := t.rows[id].(state := Active, detail := StepDone(Activate))])
  {
    WalkUnfolds(t, id, 4, request);
  }

  /** From step 4 the table for settings must be there. */
  lemma WalkFromSettings(t: Tables, id: Id, request: Request)
    requires id in t.rows && t.rows[id].state in {Provisioning, Unavailable}
    ensures var e, db := Walked(t, id, PROVISION_STEPS[3..], request), DatabaseOf(t, id);
      if db.Some? && db.value.revisions != {} then
        MadeActive(t, e, id, db.value.(settings := Upgraded(db.value, request.code).settings))
      else e.after == t && e.outcome.Refused?
  {
    WalkUnfolds(t, id, 3, request);
    var first := RunStep(t, id, PROVISION_STEPS[3], request);
    if first.outcome.Done? {
      var db := DatabaseOf(t, id).value;
      assert request.code.defaults + db.settings == Upgraded(db, request.code).settings;
      WalkToActivate(first.after, id, request);
    }
  }

  lemma WalkFromChain(t: Tables, id: Id, request: Request)
    requires id in t.rows && t.rows[id].state in {Provisioning, Unavailable} && request.code.Valid()
    ensures UpgradesOrRefuses(t, Walked(t, id, PROVISION_STEPS[2..], request), id, request)
  {
    WalkUnfolds(t, id, 2, request);
    var first := RunStep(t, id, PROVISION_STEPS[2], request);
    if first.outcome.Done? {
      WalkFromSettings(first.after, id, request);
    }
  }

  /** The workspace's database, as `ensure_database` leaves it. */
  function Ensured(t: Tables, id: Id): Db
    requires id in t.rows
  {
    if t.rows[id].database in t.databases then t.databases[t.rows[id].database] else EMPTY_DB
  }

  /** The tables once step 2 is recorded. */
  function Prepared(t: Tables, id: Id): Tables
    requires id in t.rows
  {
    t.(rows := t.rows[id := t.rows[id].(detail := StepDone(CreateDatabase))],
       databases := t.databases[t.rows[id].database := Ensured(t, id)])
  }

  /**
   * Step 2 creates a missing database and keeps one that is there, and is recorded for a row on its way to
   * active. Of a row in any other state, or of one that is not provisioning when the database was there
   * before, it is refused; then only the database that it created may be new.
   */
  lemma CreateOutcome(t: Tables, id: Id)
    ensures var e := StepCreateDatabase(t, id);
      if id !in t.rows then e == Effect(t, Refused(WorkspaceMissing))
      else
        var there, state := DatabaseOf(t, id).Some?, t.rows[id].state;
        if state == Provisioning then e == Effect(Prepared(t, id), Done)
        else if there then e == Effect(t, Refused(WorkspaceExists))
        else if state == Unavailable then
          e == Effect(Prepared(t, id).(rows := t.rows[id := t.rows[id].(
            state := Provisioning, detail := StepDone(CreateDatabase))]), Done)
        else
          e == Effect(t.(databases := t.databases[t.rows[id].database := EMPTY_DB]),
                      Refused(WorkspaceStateRefused(state)))
  {
  }

  lemma WalkFromCreate(t: Tables, id: Id, request: Request)
    requires id in t.rows && t.rows[id].state == Provisioning && request.code.Valid()
    ensures UpgradesOrRefuses(Prepared(t, id), Walked(t, id, PROVISION_STEPS[1..], request), id, request)
  {
    WalkUnfolds(t, id, 1, request);
    CreateOutcome(t, id);
    WalkFromChain(Prepared(t, id), id, request);
  }

  // ---- the theorems ----

  /**
   * Repairing a provisioning row runs what its recorded step left to do: everything from the database on
   * when that is not recorded, the chain on when it is, the settings on after the chain, and after the
   * settings the activation alone.
   */
  predicate Resumes(t: Tables, e: Effect, id: Id, request: Request)
    requires id in t.rows
  {
    var db := DatabaseOf(t, id);
    match t.rows[id].detail
    case ErrorText(_) => UpgradesOrRefuses(Prepared(t, id), e, id, request)
    case StepDone(InsertRegistryRow) => UpgradesOrRefuses(Prepared(t, id), e, id, request)
    case StepDone(CreateDatabase) => UpgradesOrRefuses(t, e, id, request)
    case StepDone(MigrateCore) =>
      if db.Some? && db.value.revisions != {} then
        MadeActive(t, e, id, db.value.(settings := Upgraded(db.value, request.code).settings))
      else e.after == t && e.outcome.Refused?
    case StepDone(WriteDefaultSettings) =>
      e == Effect(t.(rows := t.rows[id := t.rows[id].(state := Active, detail := StepDone(Activate))]), Done)
    case StepDone(Activate) => e == Effect(t, Done)
  }

  lemma RepairResumes(t: Tables, id: Id, request: Request)
    requires id in t.rows && t.rows[id].state == Provisioning && request.code.Valid()
    ensures Resumes(t, Repaired(t, id, request), id, request)
  {
    match t.rows[id].detail
    case ErrorText(_) => WalkFromCreate(t, id, request);
    case StepDone(InsertRegistryRow) => WalkFromCreate(t, id, request);
    case StepDone(CreateDatabase) => WalkFromChain(t, id, request);
    case StepDone(MigrateCore) => WalkFromSettings(t, id, request);
    case StepDone(WriteDefaultSettings) => WalkToActivate(t, id, request);
    case StepDone(Activate) => assert PROVISION_STEPS[5..] == [];
  }

  /**
   * Repairing an unavailable row replays the chain of the release that repairs: the row becomes active,
   * at that release's head and version and with its defaults, or, when the chain would fail, the repair
   * is refused for that reason and nothing changes. A provisioning row is resumed, an active one is left
   * as it is, and any other, or none, is refused.
   */
  lemma RepairOutcome(t: Tables, id: Id, request: Request)
    requires request.code.Valid()
    ensures var e := Repaired(t, id, request);
      if id !in t.rows then e == Effect(t, Refused(WorkspaceMissing))
      else match t.rows[id].state
        case Active => e == Effect(t, Done)
        case Provisioning => Resumes(t, e, id, request)
        case Unavailable => UpgradesOrRefuses(t, e, id, request)
        case Migrating => e == Effect(t, Refused(WorkspaceStateRefused(Migrating)))
        case Restoring => e == Effect(t, Refused(WorkspaceStateRefused(Restoring)))
  {
    if id in t.rows && t.rows[id].state == Provisioning { RepairResumes(t, id, request); }
    if id in t.rows && t.rows[id].state == Unavailable { WalkFromChain(t, id, request); }
  }

  /** A fresh row and its owner, as step 1 commits them. */
  function Inserted(t: Tables, id: Id, request: Request): Tables {
    t.(rows := t.rows[id := Row(request.slug, DatabaseNameFor(id), Provisioning, StepDone(InsertRegistryRow))],
       members := t.members[id := map[request.owner := Owner] + t.MembersOf(id)])
  }

  lemma InsertedByStep1(t: Tables, id: Id, request: Request)
    requires id !in t.rows && request.owner in t.accounts
    requires forall other <- t.rows :: t.rows[other].slug != request.slug
    ensures InsertRow(t, id, request.owner, request.slug) == Effect(Inserted(t, id, request), Done)
  {
    var roles := t.MembersOf(id);
    assert map[request.owner := Owner] + roles
        == if request.owner in roles then roles else roles[request.owner := Owner];
  }

  /**
   * `provision` of a new workspace is refused, with nothing changed, for a slug in use and then for an
   * unknown owner; otherwise the row, its owner and its database are there, and the chain decides the
   * rest. Of a workspace that exists it continues a provisioning of the same owner's, and is refused
   * for anyone else.
   */
  lemma ProvisionOutcome(t: Tables, id: Id, request: Request)
    requires request.code.Valid()
    ensures var e := Walked(t, id, PROVISION_STEPS, request);
      if id !in t.rows then
        if exists other <- t.rows :: t.rows[other].slug == request.slug then e == Effect(t, Refused(SlugTaken))
        else if request.owner !in t.accounts then e == Effect(t, Refused(AccountMissing))
        else UpgradesOrRefuses(Prepared(Inserted(t, id, request), id), e, id, request)
      else if t.rows[id].state == Provisioning && (request.owner, Owner) in t.MembersOf(id).Items then
        UpgradesOrRefuses(Prepared(t, id), e, id, request)
      else e == Effect(t, Refused(WorkspaceExists))
  {
    assert PROVISION_STEPS[0..] == PROVISION_STEPS;
    WalkUnfolds(t, id, 0, request);
    var first := RunStep(t, id, PROVISION_STEPS[0], request);
    if first.outcome.Done? {
      if id !in t.rows { InsertedByStep1(t, id, request); }
      WalkFromCreate(first.after, id, request);
    }
  }
}
