/** The control plane's workspace tables, the workspace databases, and the transactions on them. */
module WorkspaceTables {
  import opened Text
  import opened Uuid

  datatype WorkspaceState = Provisioning | Migrating | Active | Unavailable | Restoring

  /** The five provisioning steps, in order. */
  datatype Step = InsertRegistryRow | CreateDatabase | MigrateCore | WriteDefaultSettings | Activate

  /**
   * `state_detail`: the last completed step, or an error's text. No error text equals a step name: it is
   * `schema_ahead` or holds a colon after the exception's class name.
   */
  datatype Detail = StepDone(step: Step) | ErrorText(text: string)

  datatype Role = Owner | Member

  datatype DatabaseName = DatabaseName(text: string)

  type Revision = nat

  datatype Row = Row(slug: string, database: DatabaseName, state: WorkspaceState, detail: Detail)

  /** One workspace database: recorded revisions, the composition row and the workspace settings. */
  datatype Db = Db(revisions: set<Revision>, composition: Option<string>, settings: map<string, string>)

  const EMPTY_DB := Db({}, None, map[])

  /**
   * One release of the code: the revisions it knows, those it upgrades to, its version, and the settings
   * it declares as explicit in each workspace, with their defaults.
   */
  datatype Code = Code(known: set<Revision>, head: set<Revision>, version: string, defaults: map<string, string>) {
    predicate Valid() { head != {} && head <= known }
  }

  /**
   * An exception in a chain run: `early` before the recorded revisions are compared (no connection, the
   * wrong database, no transaction), otherwise out of a revision.
   */
  datatype Fault = Fault(early: bool, text: string)

  /** `members` groups the membership rows by workspace, then by account. */
  datatype Tables = Tables(
    rows: map<Id, Row>,
    members: map<Id, map<Id, Role>>,
    accounts: set<Id>,
    databases: map<DatabaseName, Db>)
  {
    function MembersOf(id: Id): map<Id, Role> { if id in members then members[id] else map[] }
  }

  datatype Refusal =
    | WorkspaceMissing | WorkspaceExists | WorkspaceStateRefused(state: WorkspaceState)
    | SlugTaken | AccountMissing | SchemaAhead | Raised(text: string)

  datatype Outcome = Done | Refused(refusal: Refusal)

  datatype Effect = Effect(after: Tables, outcome: Outcome)

  const PREFIX := "ws_"

  /** `database_name_for` */
  function DatabaseNameFor(id: Id): DatabaseName { DatabaseName(PREFIX + Hex(id, 32)) }

  /** Distinct workspaces never share a database. */
  lemma DatabaseNamesDiffer(a: Id, b: Id)
    ensures DatabaseNameFor(a) == DatabaseNameFor(b) <==> a == b
  {
    if DatabaseNameFor(a) == DatabaseNameFor(b) {
      assert (PREFIX + Hex(a, 32))[3..] == Hex(a, 32);
      assert (PREFIX + Hex(b, 32))[3..] == Hex(b, 32);
      HexInjective(a, b);
    }
  }

  /** `set_workspace_state`; `expected`, when given, makes it a compare-and-set. */
  function SetState(
    t: Tables, id: Id, state: WorkspaceState, detail: Detail, expected: Option<set<WorkspaceState>>): Effect
  {
    if id in t.rows && (expected.None? || t.rows[id].state in expected.value) then
      Effect(t.(rows := t.rows[id := t.rows[id].(state := state, detail := detail)]), Done)
    else if id !in t.rows then Effect(t, Refused(WorkspaceMissing))
    else Effect(t, Refused(WorkspaceStateRefused(t.rows[id].state)))
  }

  const RECORD_EXPECTED := {Provisioning, Unavailable}
  const ACTIVATE_EXPECTED := {Provisioning}

  /** `_record_step` */
  function RecordStep(t: Tables, id: Id, step: Step): Effect {
    SetState(t, id, Provisioning, StepDone(step), Some(RECORD_EXPECTED))
  }

  function ActivateRow(t: Tables, id: Id): Effect {
    SetState(t, id, Active, StepDone(Activate), Some(ACTIVATE_EXPECTED))
  }

  /** Step 1, one transaction: the row and its owner together, or the check that a retry is the owner's. */
  function InsertRow(t: Tables, id: Id, owner: Id, slug: string): Effect {
    var roles := t.MembersOf(id);
    if id in t.rows then
      if t.rows[id].state == Provisioning && owner in roles && roles[owner] == Owner then Effect(t, Done)
      else Effect(t, Refused(WorkspaceExists))
    else if exists other <- t.rows :: t.rows[other].slug == slug then Effect(t, Refused(SlugTaken))
    else if owner !in t.accounts then Effect(t, Refused(AccountMissing))
    else
      Effect(t.(
        rows := t.rows[id := Row(slug, DatabaseNameFor(id), Provisioning, StepDone(InsertRegistryRow))],
        members := t.members[id := if owner in roles then roles else roles[owner := Owner]]), Done)
  }

  /** `ensure_database`, outside any transaction. */
  function EnsureDatabase(t: Tables, name: DatabaseName): Tables {
    if name in t.databases then t else t.(databases := t.databases[name := EMPTY_DB])
  }

  /** `run_chain`: the revisions either apply whole or, with a `fault`, raise and are rolled back. */
  function RunChain(t: Tables, name: DatabaseName, code: Code, fault: Option<Fault>): (r: Result<Db, Refusal>) {
    if name !in t.databases then Err(Raised("database does not exist"))
    else if fault.Some? && fault.value.early then Err(Raised(fault.value.text))
    else if !(t.databases[name].revisions <= code.known) then Err(SchemaAhead)
    else if fault.Some? then Err(Raised(fault.value.text))
    else Ok(t.databases[name].(revisions := code.head))
  }

  /** Step 3's transaction: the chain and the composition row commit together. */
  function MigrateTransaction(t: Tables, name: DatabaseName, code: Code, fault: Option<Fault>): Effect {
    match RunChain(t, name, code, fault)
    case Err(e) => Effect(t, Refused(e))
    case Ok(db) => Effect(t.(databases := t.databases[name := db.(composition := Some(code.version))]), Done)
  }

  /** Step 4's transaction: every default inserted where absent. The table exists once a revision does. */
  function SettingsTransaction(t: Tables, name: DatabaseName, defaults: map<string, string>): Effect {
    if name !in t.databases || t.databases[name].revisions == {} then Effect(t, Refused(Raised("no settings table")))
    else
      var db := t.databases[name];
      Effect(t.(databases := t.databases[name := db.(settings := defaults + db.settings)]), Done)
  }
}

/** `provision`, `repair` and the migration loop, run one at a time. */
module Provisioner {
  import opened Text
  import opened Uuid
  import opened WorkspaceTables

  const PROVISION_STEPS := [InsertRegistryRow, CreateDatabase, MigrateCore, WriteDefaultSettings, Activate]

  /** What a walk needs besides the workspace: the owner and slug for step 1, and the chain's environment. */
  datatype Request = Request(owner: Id, slug: string, code: Code, fault: Option<Fault>)

  function StepCreateDatabase(t: Tables, id: Id): Effect {
    if id !in t.rows then Effect(t, Refused(WorkspaceMissing))
    else if t.rows[id].database in t.databases && t.rows[id].state != Provisioning then
      Effect(t, Refused(WorkspaceExists))
    else RecordStep(EnsureDatabase(t, t.rows[id].database), id, CreateDatabase)
  }

  function StepMigrateCore(t: Tables, id: Id, request: Request): Effect {
    if id !in t.rows then Effect(t, Refused(WorkspaceMissing))
    else
      var migrated := MigrateTransaction(t, t.rows[id].database, request.code, request.fault);
      if migrated.outcome.Done? then RecordStep(migrated.after, id, MigrateCore) else migrated
  }

  function StepWriteDefaultSettings(t: Tables, id: Id, defaults: map<string, string>): Effect {
    if id !in t.rows then Effect(t, Refused(WorkspaceMissing))
    else
      var written := SettingsTransaction(t, t.rows[id].database, defaults);
      if written.outcome.Done? then RecordStep(written.after, id, WriteDefaultSettings) else written
  }

  function RunStep(t: Tables, id: Id, step: Step, request: Request): Effect {
    match step
    case InsertRegistryRow => InsertRow(t, id, request.owner, request.slug)
    case CreateDatabase => StepCreateDatabase(t, id)
    case MigrateCore => StepMigrateCore(t, id, request)
    case WriteDefaultSettings => StepWriteDefaultSettings(t, id, request.code.defaults)
    case Activate => ActivateRow(t, id)
  }

  /** Steps in turn, up to the first that is refused. */
  function Walked(t: Tables, id: Id, steps: seq<Step>, request: Request): Effect
    decreases |steps|
  {
    if steps == [] then Effect(t, Done)
    else
      var first := RunStep(t, id, steps[0], request);
      if first.outcome.Done? then Walked(first.after, id, steps[1..], request) else first
  }

  function StepIndex(step: Step): (i: nat)
    ensures i < 5 && PROVISION_STEPS[i] == step
  {
    match step
    case InsertRegistryRow => 0
    case CreateDatabase => 1
    case MigrateCore => 2
    case WriteDefaultSettings => 3
    case Activate => 4
  }

  /** `_remaining_after` */
  function RemainingAfter(detail: Detail): seq<Step> {
    if detail.StepDone? then PROVISION_STEPS[StepIndex(detail.step) + 1..] else PROVISION_STEPS[1..]
  }

  function Repaired(t: Tables, id: Id, request: Request): Effect {
    if id !in t.rows then Effect(t, Refused(WorkspaceMissing))
    else match t.rows[id].state
      case Active => Effect(t, Done)
      case Provisioning => Walked(t, id, RemainingAfter(t.rows[id].detail), request)
      case Unavailable => Walked(t, id, PROVISION_STEPS[2..], request)
      case _ => Effect(t, Refused(WorkspaceStateRefused(t.rows[id].state)))
  }

  /** `migrate_workspace`: a chain failure marks the row and is not raised. */
  function Migrated(t: Tables, id: Id, code: Code, fault: Option<Fault>): Effect {
    if id !in t.rows then Effect(t, Refused(WorkspaceMissing))
    else match RunChain(t, t.rows[id].database, code, fault)
      case Ok(db) => Effect(t.(databases := t.databases[t.rows[id].database := db]), Done)
      case Err(e) => Effect(SetState(t, id, Unavailable, FailureDetail(e), None).after, Refused(e))
  }

  function FailureDetail(e: Refusal): Detail {
    match e
    case Raised(text) => ErrorText(text)
    case _ => ErrorText("schema_ahead")
  }

  /** The storage backend: registry, memberships and databases, changed one transaction at a time. */
  class Backend {
    var rows: map<Id, Row>
    var members: map<Id, map<Id, Role>>
    var accounts: set<Id>
    var databases: map<DatabaseName, Db>

    constructor (accounts: set<Id>)
      ensures State() == Tables(map[], map[], accounts, map[])
    {
      rows, members, databases := map[], map[], map[];
      this.accounts := accounts;
    }

    function State(): Tables
      reads this
    {
      Tables(rows, members, accounts, databases)
    }

    method SetWorkspaceState(id: Id, state: WorkspaceState, detail: Detail, expected: Option<set<WorkspaceState>>)
      returns (r: Outcome)
      modifies this`rows
      ensures Effect(State(), r) == SetState(old(State()), id, state, detail, expected)
    {
      if id in rows && (expected.None? || rows[id].state in expected.value) {
        rows := rows[id := rows[id].(state := state, detail := detail)];
        return Done;
      }
      if id !in rows {
        return Refused(WorkspaceMissing);
      }
      return Refused(WorkspaceStateRefused(rows[id].state));
    }

    method DoInsertRow(id: Id, owner: Id, slug: string) returns (r: Outcome)
      modifies this`rows, this`members
      ensures Effect(State(), r) == InsertRow(old(State()), id, owner, slug)
    {
      var roles := if id in members then members[id] else map[];
      if id in rows {
        if rows[id].state != Provisioning {
          return Refused(WorkspaceExists);
        }
        if owner !in roles || roles[owner] != Owner {
          return Refused(WorkspaceExists);
        }
        return Done;
      }
      if exists other <- rows :: rows[other].slug == slug {
        return Refused(SlugTaken);
      }
      if owner !in accounts {
        return Refused(AccountMissing);
      }
      rows := rows[id := Row(slug, DatabaseNameFor(id), Provisioning, StepDone(InsertRegistryRow))];
      if owner !in roles {
        roles := roles[owner := Owner];
      }
      members := members[id := roles];
      return Done;
    }

    method DoCreateDatabase(id: Id) returns (r: Outcome)
      modifies this`rows, this`databases
      ensures Effect(State(), r) == StepCreateDatabase(old(State()), id)
    {
      if id !in rows {
        return Refused(WorkspaceMissing);
      }
      var name := rows[id].database;
      if name !in databases {
        databases := databases[name := EMPTY_DB];
      } else if rows[id].state != Provisioning {
        return Refused(WorkspaceExists);
      }
      r := SetWorkspaceState(id, Provisioning, StepDone(CreateDatabase), Some(RECORD_EXPECTED));
    }

    method DoRunChain(name: DatabaseName, code: Code, fault: Option<Fault>) returns (r: Result<Db, Refusal>)
      ensures r == RunChain(State(), name, code, fault)
    {
      if name !in databases {
        return Err(Raised("database does not exist"));
      }
      if fault.Some? && fault.value.early {
        return Err(Raised(fault.value.text));
      }
      if !(databases[name].revisions <= code.known) {
        return Err(SchemaAhead);
      }
      if fault.Some? {
        return Err(Raised(fault.value.text));
      }
      return Ok(databases[name].(revisions := code.head));
    }

    method DoMigrateCore(id: Id, request: Request) returns (r: Outcome)
      modifies this`rows, this`databases
      ensures Effect(State(), r) == StepMigrateCore(old(State()), id, request)
    {
      if id !in rows {
        return Refused(WorkspaceMissing);
      }
      var name := rows[id].database;
      var chain := DoRunChain(name, request.code, request.fault);
      if chain.Err? {
        return Refused(chain.error);
      }
      databases := databases[name := chain.value.(composition := Some(request.code.version))];
      r := SetWorkspaceState(id, Provisioning, StepDone(MigrateCore), Some(RECORD_EXPECTED));
    }

    /** The loop of step 4: one insert-if-absent for each declared default. */
    method InsertDefaults(defaults: map<string, string>, before: map<string, string>)
      returns (settings: map<string, string>)
      ensures settings == defaults + before
    {
      settings := before;
      var todo := defaults.Keys;
      while todo != {}
        invariant todo <= defaults.Keys
        invariant settings.Keys == before.Keys + (defaults.Keys - todo)
        invariant forall key <- settings :: key in before ==> settings[key] == before[key]
        invariant forall key <- settings :: key !in before ==> settings[key] == defaults[key]
        decreases |todo|
      {
        var key :| key in todo;
        if key !in settings {
          settings := settings[key := defaults[key]];
        }
        todo := todo - {key};
      }
    }

    method DoWriteDefaultSettings(id: Id, defaults: map<string, string>) returns (r: Outcome)
      modifies this`rows, this`databases
      ensures Effect(State(), r) == StepWriteDefaultSettings(old(State()), id, defaults)
    {
      if id !in rows {
        return Refused(WorkspaceMissing);
      }
      var name := rows[id].database;
      if name !in databases || databases[name].revisions == {} {
        return Refused(Raised("no settings table"));
      }
      var settings := InsertDefaults(defaults, databases[name].settings);
      databases := databases[name := databases[name].(settings := settings)];
      r := SetWorkspaceState(id, Provisioning, StepDone(WriteDefaultSettings), Some(RECORD_EXPECTED));
    }

    method DoStep(id: Id, step: Step, request: Request) returns (r: Outcome)
      modifies this`rows, this`members, this`databases
      ensures Effect(State(), r) == RunStep(old(State()), id, step, request)
    {
      match step
      case InsertRegistryRow => r := DoInsertRow(id, request.owner, request.slug);
      case CreateDatabase => r := DoCreateDatabase(id);
      case MigrateCore => r := DoMigrateCore(id, request);
      case WriteDefaultSettings => r := DoWriteDefaultSettings(id, request.code.defaults);
      case Activate => r := SetWorkspaceState(id, Active, StepDone(Activate), Some(ACTIVATE_EXPECTED));
    }

    /** `_walk` */
    method Walk(id: Id, steps: seq<Step>, request: Request) returns (r: Outcome)
      modifies this`rows, this`members, this`databases
      ensures Effect(State(), r) == Walked(old(State()), id, steps, request)
    {
      r := Done;
      for i := 0 to |steps|
        invariant r == Done
        invariant Walked(State(), id, steps[i..], request) == Walked(old(State()), id, steps, request)
      {
        assert steps[i..][1..] == steps[i + 1..];
        r := DoStep(id, steps[i], request);
        if r.Refused? {
          return;
        }
      }
    }

    method Provision(id: Id, request: Request) returns (r: Outcome)
      modifies this`rows, this`members, this`databases
      ensures Effect(State(), r) == Walked(old(State()), id, PROVISION_STEPS, request)
    {
      r := Walk(id, PROVISION_STEPS, request);
    }

    method Repair(id: Id, request: Request) returns (r: Outcome)
      modifies this`rows, this`members, this`databases
      ensures Effect(State(), r) == Repaired(old(State()), id, request)
    {
      if id !in rows {
        return Refused(WorkspaceMissing);
      }
      var row := rows[id];
      if row.state == Active {
        return Done;
      }
      var remaining;
      if row.state == Provisioning {
        remaining := RemainingAfter(row.detail);
      } else if row.state == Unavailable {
        remaining := PROVISION_STEPS[2..];
      } else {
        return Refused(WorkspaceStateRefused(row.state));
      }
      r := Walk(id, remaining, request);
    }

    method MigrateWorkspace(id: Id, code: Code, fault: Option<Fault>) returns (r: Outcome)
      modifies this`rows, this`databases
      ensures Effect(State(), r) == Migrated(old(State()), id, code, fault)
    {
      if id !in rows {
        return Refused(WorkspaceMissing);
      }
      var name := rows[id].database;
      var chain := DoRunChain(name, code, fault);
      if chain.Ok? {
        databases := databases[name := chain.value];
        return Done;
      }
      var _ := SetWorkspaceState(id, Unavailable, FailureDetail(chain.error), None);
      return Refused(chain.error);
    }

    /** `migrate_active_workspaces`; `listing` is the registry's answer for the rows that are active. */
    method MigrateActiveWorkspaces(listing: seq<Id>, code: Code, faults: map<Id, Fault>) returns (results: seq<Outcome>)
      requires ListsActive(State(), listing)
      modifies this`rows, this`databases
      ensures Sweep(State(), results) == MigratedAll(old(State()), listing, code, faults)
    {
      results := [];
      for i := 0 to |listing|
        invariant Sweep(State(), results) == MigratedAll(old(State()), listing[..i], code, faults)
      {
        assert listing[..i + 1][..i] == listing[..i];
        var r := MigrateWorkspace(listing[i], code, FaultOf(faults, listing[i]));
        results := results + [r];
      }
      assert listing[..|listing|] == listing;
    }
  }

  datatype Sweep = Sweep(after: Tables, results: seq<Outcome>)

  function MigratedAll(t: Tables, listing: seq<Id>, code: Code, faults: map<Id, Fault>): (r: Sweep)
    ensures |r.results| == |listing|
    decreases |listing|
  {
    if listing == [] then Sweep(t, [])
    else
      var before, id := MigratedAll(t, listing[..|listing| - 1], code, faults), listing[|listing| - 1];
      var last := Migrated(before.after, id, code, FaultOf(faults, id));
      Sweep(last.after, before.results + [last.outcome])
  }

  ghost predicate ListsActive(t: Tables, listing: seq<Id>) {
    && (forall id :: id in listing <==> id in t.rows && t.rows[id].state == Active)
    && (forall i, j :: 0 <= i < j < |listing| ==> listing[i] != listing[j])
  }

  function FaultOf(faults: map<Id, Fault>, id: Id): Option<Fault> {
    if id in faults then Some(faults[id]) else None
  }

  /** The unique constraint on the registry's database column. */
  predicate DatabasesDistinct(t: Tables) {
    forall a, b :: a in t.rows && b in t.rows && t.rows[a].database == t.rows[b].database ==> a == b
  }

  /** The contents of a workspace's database, `None` when there is none. */
  function DatabaseOf(t: Tables, id: Id): Option<Db>
    requires id in t.rows
  {
    if t.rows[id].database in t.databases then Some(t.databases[t.rows[id].database]) else None
  }

  predicate Untouched(before: Tables, after: Tables, id: Id)
    requires id in before.rows
  {
    id in after.rows && after.rows[id] == before.rows[id] && DatabaseOf(after, id) == DatabaseOf(before, id)
  }

  /** The chain of a release ends at its head: there is a database, with no revision unknown, and nothing raises. */
  predicate ChainReachesHead(db: Option<Db>, code: Code, fault: Option<Fault>) {
    db.Some? && db.value.revisions <= code.known && fault.None?
  }

  /** Why it does not: what was raised, unless a database ahead of the release was noticed first. */
  predicate FailsAs(db: Option<Db>, code: Code, fault: Option<Fault>, e: Refusal) {
    match e
    case SchemaAhead => db.Some? && !(db.value.revisions <= code.known) && (fault.Some? ==> !fault.value.early)
    case Raised(text) =>
      if db.None? then text == "database does not exist"
      else fault.Some? && text == fault.value.text && (fault.value.early || db.value.revisions <= code.known)
    case _ => false
  }

  /** What one run of the chain did to the workspace's own row and database. */
  predicate MigratedAlone(before: Tables, after: Tables, id: Id, code: Code, fault: Option<Fault>, r: Outcome)
    requires id in before.rows
  {
    var db := DatabaseOf(before, id);
    && id in after.rows
    && if ChainReachesHead(db, code, fault) then
         && after.rows[id] == before.rows[id] && r == Done
         && DatabaseOf(after, id) == Some(db.value.(revisions := code.head))
       else
         && r.Refused? && FailsAs(db, code, fault, r.refusal) && DatabaseOf(after, id) == db
         && var text := if r.refusal.Raised? then r.refusal.text else "schema_ahead";
            after.rows[id] == before.rows[id].(state := Unavailable, detail := ErrorText(text))
  }

  lemma OtherUntouched(t: Tables, id: Id, other: Id, code: Code, fault: Option<Fault>)
    requires DatabasesDistinct(t) && id in t.rows && other in t.rows && other != id
    ensures Untouched(t, Migrated(t, id, code, fault).after, other)
  {
  }

  lemma MigratedKeepsNames(t: Tables, id: Id, code: Code, fault: Option<Fault>)
    requires id in t.rows
    ensures var after := Migrated(t, id, code, fault).after;
      && after.rows.Keys == t.rows.Keys && after.databases.Keys == t.databases.Keys
      && (forall other <- t.rows :: after.rows[other].database == t.rows[other].database)
      && (DatabasesDistinct(t) ==> DatabasesDistinct(after))
  {
  }

  lemma {:induction false} SweepKeepsNames(t: Tables, listing: seq<Id>, code: Code, faults: map<Id, Fault>)
    requires DatabasesDistinct(t) && forall listed <- listing :: listed in t.rows
    ensures var after := MigratedAll(t, listing, code, faults).after;
      && after.rows.Keys == t.rows.Keys && after.databases.Keys == t.databases.Keys && DatabasesDistinct(after)
      && forall other <- t.rows :: after.rows[other].database == t.rows[other].database
    decreases |listing|
  {
    if listing != [] {
      var earlier, id := listing[..|listing| - 1], listing[|listing| - 1];
      assert id in listing && forall listed <- earlier :: listed in listing;
      SweepKeepsNames(t, earlier, code, faults);
      MigratedKeepsNames(MigratedAll(t, earlier, code, faults).after, id, code, FaultOf(faults, id));
    }
  }

  lemma {:induction false} SweepLeavesOthers(t: Tables, listing: seq<Id>, id: Id, code: Code, faults: map<Id, Fault>)
    requires DatabasesDistinct(t) && id in t.rows && id !in listing
    requires forall listed <- listing :: listed in t.rows
    ensures Untouched(t, MigratedAll(t, listing, code, faults).after, id)
    decreases |listing|
  {
    if listing != [] {
      var earlier, last := listing[..|listing| - 1], listing[|listing| - 1];
      assert last in listing && forall listed <- earlier :: listed in listing;
      SweepLeavesOthers(t, earlier, id, code, faults);
      SweepKeepsNames(t, earlier, code, faults);
      OtherUntouched(MigratedAll(t, earlier, code, faults).after, last, id, code, FaultOf(faults, last));
    }
  }

  lemma SweepVisitsLast(t: Tables, listing: seq<Id>, code: Code, faults: map<Id, Fault>)
    requires DatabasesDistinct(t) && listing != []
    requires forall listed <- listing :: listed in t.rows
    requires listing[|listing| - 1] !in listing[..|listing| - 1]
    ensures var id, sweep := listing[|listing| - 1], MigratedAll(t, listing, code, faults);
      MigratedAlone(t, sweep.after, id, code, FaultOf(faults, id), sweep.results[|listing| - 1])
  {
    var earlier, id := listing[..|listing| - 1], listing[|listing| - 1];
    assert forall listed <- earlier :: listed in listing;
    SweepLeavesOthers(t, earlier, id, code, faults);
    VisitAfterUntouched(t, MigratedAll(t, earlier, code, faults).after, id, code, FaultOf(faults, id));
  }

  lemma {:induction false} SweepVisits(t: Tables, listing: seq<Id>, k: nat, code: Code, faults: map<Id, Fault>)
    requires DatabasesDistinct(t) && k < |listing|
    requires forall listed <- listing :: listed in t.rows
    requires forall i, j :: 0 <= i < j < |listing| ==> listing[i] != listing[j]
    ensures listing[k] in t.rows
    ensures var sweep := MigratedAll(t, listing, code, faults);
      MigratedAlone(t, sweep.after, listing[k], code, FaultOf(faults, listing[k]), sweep.results[k])
    decreases |listing|
  {
    if k == |listing| - 1 {
      SweepVisitsLast(t, listing, code, faults);
    } else {
      var earlier, last := listing[..|listing| - 1], listing[|listing| - 1];
      assert last in listing && forall listed <- earlier :: listed in listing;
      SweepVisits(t, earlier, k, code, faults);
      SweepKeepsNames(t, earlier, code, faults);
      LaterVisit(t, MigratedAll(t, earlier, code, faults), k, listing[k], last, code, faults);
    }
  }

  /** The visit of another workspace leaves what an earlier visit did. */
  lemma LaterVisit(t: Tables, before: Sweep, k: nat, id: Id, last: Id, code: Code, faults: map<Id, Fault>)
    requires id in t.rows && k < |before.results|
    requires MigratedAlone(t, before.after, id, code, FaultOf(faults, id), before.results[k])
    requires DatabasesDistinct(before.after) && last in before.after.rows && last != id
    ensures MigratedAlone(t, Migrated(before.after, last, code, FaultOf(faults, last)).after,
                          id, code, FaultOf(faults, id), before.results[k])
  {
    OtherUntouched(before.after, last, id, code, FaultOf(faults, last));
    UntouchedAfterVisit(t, before.after, Migrated(before.after, last, code, FaultOf(faults, last)).after,
                        id, code, FaultOf(faults, id), before.results[k]);
  }

  lemma VisitAfterUntouched(start: Tables, now: Tables, id: Id, code: Code, fault: Option<Fault>)
    requires id in start.rows && Untouched(start, now, id)
    ensures var step := Migrated(now, id, code, fault);
      MigratedAlone(start, step.after, id, code, fault, step.outcome)
  {
  }

  lemma UntouchedAfterVisit(
    start: Tables, now: Tables, later: Tables, id: Id, code: Code, fault: Option<Fault>, r: Outcome)
    requires id in start.rows && MigratedAlone(start, now, id, code, fault, r) && Untouched(now, later, id)
    ensures MigratedAlone(start, later, id, code, fault, r)
  {
  }

  /**
   * The migration loop visits every active workspace. Where the chain succeeds the database is at head
   * and the registry row is not written; where it fails the database is as before and the row is
   * `unavailable` with the reason. No other workspace changes.
   */
  lemma MigrationLoop(t: Tables, listing: seq<Id>, code: Code, faults: map<Id, Fault>)
    requires DatabasesDistinct(t) && ListsActive(t, listing)
    ensures var sweep := MigratedAll(t, listing, code, faults);
      && (forall k | 0 <= k < |listing| ::
            listing[k] in t.rows
            && MigratedAlone(t, sweep.after, listing[k], code, FaultOf(faults, listing[k]), sweep.results[k]))
      && (forall id <- t.rows :: t.rows[id].state != Active ==> Untouched(t, sweep.after, id))
  {
    forall k | 0 <= k < |listing|
      ensures listing[k] in t.rows
      ensures var sweep := MigratedAll(t, listing, code, faults);
        MigratedAlone(t, sweep.after, listing[k], code, FaultOf(faults, listing[k]), sweep.results[k])
    {
      SweepVisits(t, listing, k, code, faults);
    }
    forall id | id in t.rows && t.rows[id].state != Active
      ensures Untouched(t, MigratedAll(t, listing, code, faults).after, id)
    {
      SweepLeavesOthers(t, listing, id, code, faults);
    }
  }
}
