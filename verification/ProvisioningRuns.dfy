/**
 * Any number of `provision`, `repair` and migration processes at once. Each committed transaction is one
 * step; a process may stop between any two of them.
 */
module ProvisioningRuns {
  import opened Text
  import opened Uuid
  import opened WorkspaceTables
  import opened Provisioner
  import Outcomes = ProvisioningOutcomes

  /** Where a walker is: before the transaction named. */
  datatype Pc =
    | AtInsert(owner: Id, slug: string)
    | AtCreate
    | AtExistsCheck
    | AtRecord(step: Step)
    | AtMigrate
    | AtSettings
    | AtActivate

  /** A walker runs one release; `claimant` is the owner that a `provision` was called for. */
  datatype Walker = Walker(id: Id, claimant: Option<Id>, code: Code, pc: Pc)

  /** The tables after a step, its outcome, and where the walker stands; `None` when it has finished or was refused. */
  datatype Progress = Progress(after: Tables, outcome: Outcome, next: Option<Pc>)

  function Then(effect: Effect, next: Option<Pc>): Progress {
    Progress(effect.after, effect.outcome, if effect.outcome.Done? then next else None)
  }

  function AfterRecord(step: Step): Option<Pc> {
    match step
    case CreateDatabase => Some(AtMigrate)
    case MigrateCore => Some(AtSettings)
    case WriteDefaultSettings => Some(AtActivate)
    case _ => None
  }

  function CreateStep(t: Tables, id: Id): Progress
    requires id in t.rows
  {
    var name := t.rows[id].database;
    var next := if name in t.databases then AtExistsCheck else AtRecord(CreateDatabase);
    Progress(EnsureDatabase(t, name), Done, Some(next))
  }

  function MigrateStep(t: Tables, id: Id, code: Code, fault: Option<Fault>): Progress
    requires id in t.rows
  {
    Then(MigrateTransaction(t, t.rows[id].database, code, fault), Some(AtRecord(MigrateCore)))
  }

  function SettingsStep(t: Tables, id: Id, code: Code): Progress
    requires id in t.rows
  {
    Then(SettingsTransaction(t, t.rows[id].database, code.defaults), Some(AtRecord(WriteDefaultSettings)))
  }

  /**
   * One transaction of a walk. A read of the row's database name, which never changes, is part of it;
   * a missing row raises.
   */
  function WalkerStep(t: Tables, w: Walker, fault: Option<Fault>): Progress {
    var missing := Progress(t, Refused(WorkspaceMissing), None);
    match w.pc
    case AtInsert(owner, slug) => Then(InsertRow(t, w.id, owner, slug), Some(AtCreate))
    case AtRecord(step) => Then(RecordStep(t, w.id, step), AfterRecord(step))
    case AtActivate => Then(ActivateRow(t, w.id), None)
    case AtCreate => if w.id in t.rows then CreateStep(t, w.id) else missing
    case AtMigrate => if w.id in t.rows then MigrateStep(t, w.id, w.code, fault) else missing
    case AtSettings => if w.id in t.rows then SettingsStep(t, w.id, w.code) else missing
    case AtExistsCheck =>
      if w.id !in t.rows then missing
      else if t.rows[w.id].state != Provisioning then Progress(t, Refused(WorkspaceExists), None)
      else Progress(t, Done, Some(AtRecord(CreateDatabase)))
  }

  function PcOf(step: Step): Pc
    requires step != InsertRegistryRow
  {
    match step
    case CreateDatabase => AtCreate
    case MigrateCore => AtMigrate
    case WriteDefaultSettings => AtSettings
    case Activate => AtActivate
  }

  /** Where `repair` starts, from the one read of the row it makes, or how it ends there. */
  function RepairStart(t: Tables, id: Id): Result<Pc, Outcome> {
    if id !in t.rows then Err(Refused(WorkspaceMissing))
    else match t.rows[id].state
      case Provisioning =>
        var remaining := RemainingAfter(t.rows[id].detail);
        if remaining == [] then Err(Done) else Ok(PcOf(remaining[0]))
      case Unavailable => Ok(AtMigrate)
      case Active => Err(Done)
      case _ => Err(Refused(WorkspaceStateRefused(t.rows[id].state)))
  }

  /** A migration loop: its release, the workspaces still listed, and the failure to record for the first. */
  datatype Migrator = Migrator(code: Code, todo: seq<Id>, failure: Option<Detail>)

  datatype MigratorProgress = MigratorProgress(after: Tables, next: Option<Migrator>)

  function MigratorStep(t: Tables, m: Migrator, fault: Option<Fault>): MigratorProgress {
    if m.todo == [] || m.todo[0] !in t.rows then MigratorProgress(t, None)
    else
      var id, onward := m.todo[0], Some(m.(todo := m.todo[1..], failure := None));
      match m.failure
      case Some(detail) => MigratorProgress(SetState(t, id, Unavailable, detail, None).after, onward)
      case None =>
        match RunChain(t, t.rows[id].database, m.code, fault)
        case Ok(db) => MigratorProgress(t.(databases := t.databases[t.rows[id].database := db]), onward)
        case Err(e) => MigratorProgress(t, Some(m.(failure := Some(FailureDetail(e)))))
  }

  datatype System = System(tables: Tables, walkers: map<nat, Walker>, migrators: map<nat, Migrator>)

  datatype Action =
    | BeginProvision(walker: nat, id: Id, owner: Id, slug: string, code: Code)
    | BeginRepair(walker: nat, id: Id, code: Code)
    | StepWalker(walker: nat, fault: Option<Fault>)
    | CrashWalker(walker: nat)
    | BeginMigration(migrator: nat, todo: seq<Id>, code: Code)
    | StepMigrator(migrator: nat, fault: Option<Fault>)
    | CrashMigrator(migrator: nat)
    | WriteSetting(id: Id, key: string, value: string)
    | AddAccount(account: Id)
  {
    predicate Begins() { BeginProvision? || BeginRepair? || BeginMigration? }
  }

  /** A dispatch is routed through an active row, but may commit after the row has left that state. */
  function SettingWritten(t: Tables, id: Id, key: string, value: string): Tables {
    if id !in t.rows || t.rows[id].database !in t.databases then t
    else
      var name := t.rows[id].database;
      var db := t.databases[name];
      t.(databases := t.databases[name := db.(settings := db.settings[key := value])])
  }

  function Next(s: System, a: Action): System {
    match a
    case BeginProvision(w, id, owner, slug, code) =>
      if w in s.walkers then s
      else s.(walkers := s.walkers[w := Walker(id, Some(owner), code, AtInsert(owner, slug))])
    case BeginRepair(w, id, code) =>
      var start := RepairStart(s.tables, id);
      if w in s.walkers || start.Err? then s
      else s.(walkers := s.walkers[w := Walker(id, None, code, start.value)])
    case StepWalker(w, fault) =>
      if w !in s.walkers then s
      else
        var p := WalkerStep(s.tables, s.walkers[w], fault);
        s.(tables := p.after,
           walkers := if p.next.Some? then s.walkers[w := s.walkers[w].(pc := p.next.value)] else s.walkers - {w})
    case CrashWalker(w) => s.(walkers := s.walkers - {w})
    case BeginMigration(m, todo, code) =>
      if m in s.migrators || exists id <- todo :: id !in s.tables.rows || s.tables.rows[id].state != Active then s
      else s.(migrators := s.migrators[m := Migrator(code, todo, None)])
    case StepMigrator(m, fault) =>
      if m !in s.migrators then s
      else
        var p := MigratorStep(s.tables, s.migrators[m], fault);
        s.(tables := p.after,
           migrators := if p.next.Some? then s.migrators[m := p.next.value] else s.migrators - {m})
    case CrashMigrator(m) => s.(migrators := s.migrators - {m})
    case WriteSetting(id, key, value) => s.(tables := SettingWritten(s.tables, id, key, value))
    case AddAccount(account) => s.(tables := s.tables.(accounts := s.tables.accounts + {account}))
  }

  function Run(s: System, actions: seq<Action>): System
    decreases |actions|
  {
    if actions == [] then s else Next(Run(s, actions[..|actions| - 1]), actions[|actions| - 1])
  }

  /** Every process of the run is of one of the releases. */
  predicate RunsOnly(actions: seq<Action>, releases: set<Code>) {
    (forall c <- releases :: c.Valid()) && forall a <- actions :: a.Begins() ==> a.code in releases
  }

  /** An empty registry; databases left by others may exist, and hold anything. */
  predicate Init(s: System) {
    s.tables.rows == map[] && s.tables.members == map[] && s.walkers == map[] && s.migrators == map[]
  }

  // ---- what a database has reached ----

  /** The database records exactly the revisions that one of the releases upgrades to. */
  predicate AtHead(db: Db, releases: set<Code>) { exists c <- releases :: db.revisions == c.head }

  predicate Composed(db: Db, releases: set<Code>) { exists c <- releases :: db.composition == Some(c.version) }

  /** Every setting that one of the releases declares as explicit has a row. */
  predicate Defaulted(db: Db, releases: set<Code>) { exists c <- releases :: c.defaults.Keys <= db.settings.Keys }

  /** Steps up to number `i` are done for the workspace, as facts that no transaction undoes. */
  predicate Reached(t: Tables, id: Id, i: nat, releases: set<Code>)
    requires id in t.rows
  {
    var db := DatabaseOf(t, id);
    && (i >= 1 ==> db.Some?)
    && (i >= 2 ==> db.Some? && AtHead(db.value, releases) && Composed(db.value, releases))
    && (i >= 3 ==> db.Some? && Defaulted(db.value, releases))
  }

  /** The workspace has one membership, its owner's. */
  predicate OwnedBy(t: Tables, id: Id, account: Id) { t.MembersOf(id) == map[account := Owner] }

  ghost predicate Owned(t: Tables, id: Id) { exists account: Id :: OwnedBy(t, id, account) }

  ghost predicate RowOk(t: Tables, id: Id, releases: set<Code>)
    requires id in t.rows
  {
    var row := t.rows[id];
    && row.database == DatabaseNameFor(id)
    && Owned(t, id)
    && StateOk(t, id, row.state, row.detail, releases)
  }

  /** What a row's state and detail say about the workspace. */
  predicate StateOk(t: Tables, id: Id, state: WorkspaceState, detail: Detail, releases: set<Code>)
    requires id in t.rows
  {
    match state
    case Provisioning =>
      detail.StepDone? && detail.step != Activate && Reached(t, id, StepIndex(detail.step), releases)
    case Active => detail == StepDone(Activate) && Reached(t, id, 3, releases)
    case Unavailable => detail.ErrorText? && Reached(t, id, 3, releases)
    case _ => false
  }

  ghost predicate TablesOk(t: Tables, releases: set<Code>) {
    && (forall id <- t.rows :: RowOk(t, id, releases))
    && (forall id <- t.members :: id in t.rows)
  }

  predicate IsOwner(t: Tables, id: Id, account: Id) {
    account in t.MembersOf(id) && t.MembersOf(id)[account] == Owner
  }

  /** A `provision` passes step 1 only for the workspace's owner. */
  predicate ClaimOk(t: Tables, w: Walker) {
    if w.pc.AtInsert? then w.claimant == Some(w.pc.owner)
    else w.claimant.Some? ==> IsOwner(t, w.id, w.claimant.value)
  }

  predicate WalkerOk(t: Tables, w: Walker, releases: set<Code>) {
    w.code in releases && ClaimOk(t, w) && (w.pc.AtInsert? || PlaceOk(t, w.id, w.pc, releases))
  }

  /** What a walker past step 1 may rely on. */
  predicate PlaceOk(t: Tables, id: Id, pc: Pc, releases: set<Code>) {
    && id in t.rows
    && match pc
       case AtInsert(_, _) => false
       case AtCreate => true
       case AtExistsCheck => Reached(t, id, 1, releases)
       case AtRecord(step) =>
         step != InsertRegistryRow && step != Activate && Reached(t, id, StepIndex(step), releases)
       case AtMigrate => Reached(t, id, 1, releases)
       case AtSettings => Reached(t, id, 2, releases)
       case AtActivate => Reached(t, id, 3, releases)
  }

  /** A row that was once active has every fact, so a late failure may mark it whatever it is now. */
  predicate MigratorOk(t: Tables, m: Migrator, releases: set<Code>) {
    && m.code in releases
    && (forall id <- m.todo :: id in t.rows && Reached(t, id, 3, releases))
    && (m.failure.Some? ==> m.failure.value.ErrorText?)
  }

  ghost predicate Inv(s: System, releases: set<Code>) {
    && (forall c <- releases :: c.Valid())
    && TablesOk(s.tables, releases)
    && (forall w <- s.walkers :: WalkerOk(s.tables, s.walkers[w], releases))
    && (forall m <- s.migrators :: MigratorOk(s.tables, s.migrators[m], releases))
  }

  /** What no transaction undoes: rows, their names and memberships, and the facts of each database. */
  predicate Grows(t: Tables, u: Tables, releases: set<Code>) {
    && (forall id <- t.rows ::
          id in u.rows && u.rows[id].database == t.rows[id].database && u.MembersOf(id) == t.MembersOf(id))
    && (forall name <- t.databases ::
          name in u.databases && DbGrows(t.databases[name], u.databases[name], releases))
  }

  predicate DbGrows(d: Db, e: Db, releases: set<Code>) {
    && (AtHead(d, releases) ==> AtHead(e, releases))
    && (Composed(d, releases) ==> Composed(e, releases))
    && (Defaulted(d, releases) ==> Defaulted(e, releases))
  }

  /** No existing setting has another value. */
  predicate KeepsSettings(t: Tables, u: Tables) {
    forall name <- t.databases ::
      name in u.databases && SettingsKept(t.databases[name].settings, u.databases[name].settings)
  }

  predicate SettingsKept(a: map<string, string>, b: map<string, string>) {
    forall key <- a :: key in b && b[key] == a[key]
  }

  /** Settings that keep their keys keep whatever defaults were there. */
  lemma MoreKeys(d: Db, e: Db, releases: set<Code>)
    requires d.settings.Keys <= e.settings.Keys
    ensures Defaulted(d, releases) ==> Defaulted(e, releases)
  {
  }

  lemma GrownKeepsReached(t: Tables, u: Tables, id: Id, i: nat, releases: set<Code>)
    requires Grows(t, u, releases) && id in t.rows && Reached(t, id, i, releases)
    ensures Reached(u, id, i, releases)
  {
  }

  lemma GrownKeepsOwned(t: Tables, u: Tables, id: Id, releases: set<Code>)
    requires Grows(t, u, releases) && id in t.rows && Owned(t, id)
    ensures Owned(u, id)
  {
    var account: Id :| OwnedBy(t, id, account);
    assert OwnedBy(u, id, account);
  }

  lemma GrownKeepsRow(t: Tables, u: Tables, id: Id, releases: set<Code>)
    requires Grows(t, u, releases) && id in t.rows && RowOk(t, id, releases) && u.rows[id] == t.rows[id]
    ensures RowOk(u, id, releases)
  {
    GrownKeepsOwned(t, u, id, releases);
    var row := t.rows[id];
    var i := if row.state == Provisioning then StepIndex(row.detail.step) else 3;
    GrownKeepsReached(t, u, id, i, releases);
  }

  /** Rows that did not change stay right when everything else only grows. */
  lemma GrownKeepsRows(t: Tables, u: Tables, changed: Id, releases: set<Code>)
    requires TablesOk(t, releases) && Grows(t, u, releases)
    requires forall id <- u.rows :: id != changed ==> id in t.rows && u.rows[id] == t.rows[id]
    requires forall id <- u.members :: id in u.rows
    requires changed in u.rows ==> RowOk(u, changed, releases)
    ensures TablesOk(u, releases)
  {
    forall id | id in u.rows && id != changed ensures RowOk(u, id, releases) { GrownKeepsRow(t, u, id, releases); }
  }

  lemma GrownKeepsPlace(t: Tables, u: Tables, id: Id, pc: Pc, releases: set<Code>)
    requires Grows(t, u, releases) && PlaceOk(t, id, pc, releases)
    ensures PlaceOk(u, id, pc, releases)
  {
    match pc
    case AtExistsCheck => GrownKeepsReached(t, u, id, 1, releases);
    case AtRecord(step) => GrownKeepsReached(t, u, id, StepIndex(step), releases);
    case AtMigrate => GrownKeepsReached(t, u, id, 1, releases);
    case AtSettings => GrownKeepsReached(t, u, id, 2, releases);
    case AtActivate => GrownKeepsReached(t, u, id, 3, releases);
    case _ =>
  }

  lemma GrownKeepsWalker(t: Tables, u: Tables, w: Walker, releases: set<Code>)
    requires Grows(t, u, releases) && WalkerOk(t, w, releases)
    ensures WalkerOk(u, w, releases)
  {
    if !w.pc.AtInsert? { GrownKeepsPlace(t, u, w.id, w.pc, releases); }
  }

  lemma GrownKeepsMigrator(t: Tables, u: Tables, m: Migrator, releases: set<Code>)
    requires Grows(t, u, releases) && MigratorOk(t, m, releases)
    ensures MigratorOk(u, m, releases)
  {
    forall id | id in m.todo ensures id in u.rows && Reached(u, id, 3, releases) {
      GrownKeepsReached(t, u, id, 3, releases);
    }
  }

  // ---- what each transaction does ----

  lemma InsertRowGrows(t: Tables, id: Id, owner: Id, slug: string, releases: set<Code>)
    requires TablesOk(t, releases)
    ensures var e := InsertRow(t, id, owner, slug);
      && Grows(t, e.after, releases) && KeepsSettings(t, e.after) && TablesOk(e.after, releases)
      && (e.outcome.Done? ==> id in e.after.rows)
  {
    var e := InsertRow(t, id, owner, slug);
    if id !in t.rows && e.outcome.Done? {
      assert id !in t.members && owner !in t.MembersOf(id);
      NewRowOk(t, id, owner, e.after.rows[id], releases);
    }
  }

  lemma NewRowOk(t: Tables, id: Id, owner: Id, row: Row, releases: set<Code>)
    requires TablesOk(t, releases) && id !in t.rows && row.database == DatabaseNameFor(id)
    requires row.state == Provisioning && row.detail == StepDone(InsertRegistryRow)
    ensures var u := t.(rows := t.rows[id := row], members := t.members[id := map[owner := Owner]]);
      Grows(t, u, releases) && TablesOk(u, releases)
  {
    var u := t.(rows := t.rows[id := row], members := t.members[id := map[owner := Owner]]);
    assert RowOk(u, id, releases) by { assert OwnedBy(u, id, owner); }
    NewRowGrows(t, id, owner, row, releases);
    GrownKeepsRows(t, u, id, releases);
  }

  lemma NewRowGrows(t: Tables, id: Id, owner: Id, row: Row, releases: set<Code>)
    requires id !in t.rows
    ensures Grows(t, t.(rows := t.rows[id := row], members := t.members[id := map[owner := Owner]]), releases)
  {
  }

  /** Writing a row's state, when the facts for that state hold. */
  lemma SetStateGrows(
    t: Tables, id: Id, state: WorkspaceState, detail: Detail, expected: Option<set<WorkspaceState>>,
    releases: set<Code>)
    requires TablesOk(t, releases) && id in t.rows && StateOk(t, id, state, detail, releases)
    ensures var e := SetState(t, id, state, detail, expected);
      Grows(t, e.after, releases) && KeepsSettings(t, e.after) && TablesOk(e.after, releases)
  {
    var e := SetState(t, id, state, detail, expected);
    if e.outcome.Done? {
      WrittenRowGrows(t, id, e.after.rows[id], releases);
      assert RowOk(e.after, id, releases) by {
        assert RowOk(t, id, releases);
        GrownKeepsOwned(t, e.after, id, releases);
        assert DatabaseOf(e.after, id) == DatabaseOf(t, id);
      }
      GrownKeepsRows(t, e.after, id, releases);
    }
  }

  lemma WrittenRowGrows(t: Tables, id: Id, row: Row, releases: set<Code>)
    requires id in t.rows && row.database == t.rows[id].database
    ensures var u := t.(rows := t.rows[id := row]); Grows(t, u, releases) && KeepsSettings(t, u)
  {
  }

  /** Writing a database that only grows. */
  lemma DatabaseGrows(t: Tables, name: DatabaseName, db: Db, releases: set<Code>)
    requires TablesOk(t, releases) && (name in t.databases ==> DbGrows(t.databases[name], db, releases))
    ensures var u := t.(databases := t.databases[name := db]); Grows(t, u, releases) && TablesOk(u, releases)
  {
    var u := t.(databases := t.databases[name := db]);
    assert Grows(t, u, releases);
    forall id | id in u.rows ensures RowOk(u, id, releases) { GrownKeepsRow(t, u, id, releases); }
  }

  ghost predicate StepOk(t: Tables, id: Id, p: Progress, releases: set<Code>) {
    && Grows(t, p.after, releases) && KeepsSettings(t, p.after) && TablesOk(p.after, releases)
    && (p.next.Some? ==> PlaceOk(p.after, id, p.next.value, releases))
  }

  lemma CreateStepOk(t: Tables, id: Id, releases: set<Code>)
    requires TablesOk(t, releases) && id in t.rows
    ensures StepOk(t, id, CreateStep(t, id), releases)
  {
    var name := t.rows[id].database;
    if name !in t.databases { DatabaseGrows(t, name, EMPTY_DB, releases); }
  }

  /** A database that a chain of one of the releases brought to head. */
  lemma ChainGrows(db: Db, code: Code, composition: Option<string>, releases: set<Code>)
    requires code in releases && (composition == db.composition || composition == Some(code.version))
    ensures var after := db.(revisions := code.head, composition := composition);
      && DbGrows(db, after, releases) && AtHead(after, releases)
      && (composition == Some(code.version) ==> Composed(after, releases))
  {
    MoreKeys(db, db.(revisions := code.head, composition := composition), releases);
  }

  lemma MigrateStepOk(t: Tables, id: Id, code: Code, fault: Option<Fault>, releases: set<Code>)
    requires TablesOk(t, releases) && id in t.rows && code in releases
    ensures StepOk(t, id, MigrateStep(t, id, code, fault), releases)
  {
    var name := t.rows[id].database;
    var e := MigrateTransaction(t, name, code, fault);
    if e.outcome.Done? {
      ChainGrows(t.databases[name], code, Some(code.version), releases);
      DatabaseGrows(t, name, e.after.databases[name], releases);
    }
  }

  lemma DefaultsGrow(db: Db, code: Code, releases: set<Code>)
    requires code in releases
    ensures var after := db.(settings := code.defaults + db.settings);
      DbGrows(db, after, releases) && Defaulted(after, releases)
  {
    MoreKeys(db, db.(settings := code.defaults + db.settings), releases);
  }

  lemma SettingsStepOk(t: Tables, id: Id, code: Code, releases: set<Code>)
    requires TablesOk(t, releases) && id in t.rows && Reached(t, id, 2, releases) && code in releases
    ensures StepOk(t, id, SettingsStep(t, id, code), releases)
  {
    var name := t.rows[id].database;
    var e := SettingsTransaction(t, name, code.defaults);
    if e.outcome.Done? {
      DefaultsGrow(t.databases[name], code, releases);
      DatabaseGrows(t, name, e.after.databases[name], releases);
      GrownKeepsReached(t, e.after, id, 2, releases);
    }
  }

  lemma RecordStepOk(t: Tables, id: Id, step: Step, releases: set<Code>)
    requires TablesOk(t, releases) && id in t.rows && Reached(t, id, StepIndex(step), releases)
    requires step != InsertRegistryRow && step != Activate
    ensures StepOk(t, id, Then(RecordStep(t, id, step), AfterRecord(step)), releases)
  {
    SetStateGrows(t, id, Provisioning, StepDone(step), Some(RECORD_EXPECTED), releases);
    GrownKeepsReached(t, RecordStep(t, id, step).after, id, StepIndex(step), releases);
  }

  lemma InsertStepOk(t: Tables, id: Id, owner: Id, slug: string, releases: set<Code>)
    requires TablesOk(t, releases)
    ensures StepOk(t, id, Then(InsertRow(t, id, owner, slug), Some(AtCreate)), releases)
  {
    InsertRowGrows(t, id, owner, slug, releases);
  }

  lemma ActivateStepOk(t: Tables, id: Id, releases: set<Code>)
    requires TablesOk(t, releases) && id in t.rows && Reached(t, id, 3, releases)
    ensures StepOk(t, id, Then(ActivateRow(t, id), None), releases)
  {
    SetStateGrows(t, id, Active, StepDone(Activate), Some(ACTIVATE_EXPECTED), releases);
  }

  lemma StandingOk(t: Tables, id: Id, outcome: Outcome, next: Option<Pc>, releases: set<Code>)
    requires TablesOk(t, releases) && (next.Some? ==> PlaceOk(t, id, next.value, releases))
    ensures StepOk(t, id, Progress(t, outcome, next), releases)
  {
  }

  lemma WalkerStepGrows(t: Tables, w: Walker, fault: Option<Fault>, releases: set<Code>)
    requires TablesOk(t, releases) && (w.pc.AtInsert? || PlaceOk(t, w.id, w.pc, releases)) && w.code in releases
    ensures StepOk(t, w.id, WalkerStep(t, w, fault), releases)
  {
    match w.pc
    case AtInsert(owner, slug) => InsertStepOk(t, w.id, owner, slug, releases);
    case AtRecord(step) => RecordStepOk(t, w.id, step, releases);
    case AtActivate => ActivateStepOk(t, w.id, releases);
    case AtCreate => CreateStepOk(t, w.id, releases);
    case AtExistsCheck =>
      var p := WalkerStep(t, w, fault);
      StandingOk(t, w.id, p.outcome, p.next, releases);
    case AtMigrate => MigrateStepOk(t, w.id, w.code, fault, releases);
    case AtSettings => SettingsStepOk(t, w.id, w.code, releases);
  }

  /** Step 1 lets only the owner through, and no later transaction changes who that is. */
  lemma InsertClaims(t: Tables, id: Id, owner: Id, slug: string, releases: set<Code>)
    requires TablesOk(t, releases) && InsertRow(t, id, owner, slug).outcome.Done?
    ensures IsOwner(InsertRow(t, id, owner, slug).after, id, owner)
  {
  }

  lemma StepKeepsClaim(t: Tables, w: Walker, fault: Option<Fault>, releases: set<Code>)
    requires TablesOk(t, releases) && WalkerOk(t, w, releases) && Grows(t, WalkerStep(t, w, fault).after, releases)
    ensures var p := WalkerStep(t, w, fault);
      p.next.Some? && w.claimant.Some? ==> IsOwner(p.after, w.id, w.claimant.value)
  {
    if w.pc.AtInsert? && WalkerStep(t, w, fault).next.Some? {
      InsertClaims(t, w.id, w.pc.owner, w.pc.slug, releases);
    }
  }

  ghost predicate MigratorStepOk(t: Tables, p: MigratorProgress, releases: set<Code>) {
    && Grows(t, p.after, releases) && KeepsSettings(t, p.after) && TablesOk(p.after, releases)
    && (p.next.Some? ==> MigratorOk(p.after, p.next.value, releases))
  }

  lemma RecordFailureOk(t: Tables, m: Migrator, detail: Detail, releases: set<Code>)
    requires TablesOk(t, releases) && MigratorOk(t, m, releases) && m.todo != [] && detail.ErrorText?
    ensures var after := SetState(t, m.todo[0], Unavailable, detail, None).after;
      MigratorStepOk(t, MigratorProgress(after, Some(m.(todo := m.todo[1..], failure := None))), releases)
  {
    assert m.todo[0] in m.todo && forall other <- m.todo[1..] :: other in m.todo;
    var after := SetState(t, m.todo[0], Unavailable, detail, None).after;
    SetStateGrows(t, m.todo[0], Unavailable, detail, None, releases);
    GrownKeepsMigrator(t, after, m.(todo := m.todo[1..], failure := None), releases);
  }

  lemma ChainOk(t: Tables, m: Migrator, fault: Option<Fault>, releases: set<Code>)
    requires TablesOk(t, releases) && MigratorOk(t, m, releases)
    requires m.todo != [] && m.todo[0] in t.rows && m.failure.None?
    ensures MigratorStepOk(t, MigratorStep(t, m, fault), releases)
  {
    var name := t.rows[m.todo[0]].database;
    var chain := RunChain(t, name, m.code, fault);
    assert forall other <- m.todo[1..] :: other in m.todo;
    if chain.Ok? {
      ChainGrows(t.databases[name], m.code, t.databases[name].composition, releases);
      DatabaseGrows(t, name, chain.value, releases);
      var after := t.(databases := t.databases[name := chain.value]);
      GrownKeepsMigrator(t, after, m.(todo := m.todo[1..], failure := None), releases);
    }
  }

  lemma MigratorStepGrows(t: Tables, m: Migrator, fault: Option<Fault>, releases: set<Code>)
    requires TablesOk(t, releases) && MigratorOk(t, m, releases)
    ensures MigratorStepOk(t, MigratorStep(t, m, fault), releases)
  {
    if m.todo != [] {
      assert m.todo[0] in m.todo;
      if m.failure.Some? {
        RecordFailureOk(t, m, m.failure.value, releases);
      } else {
        ChainOk(t, m, fault, releases);
      }
    }
  }

  lemma SettingGrows(t: Tables, id: Id, key: string, value: string, releases: set<Code>)
    requires TablesOk(t, releases)
    ensures var u := SettingWritten(t, id, key, value); TablesOk(u, releases) && Grows(t, u, releases)
  {
    if id in t.rows && t.rows[id].database in t.databases {
      var name := t.rows[id].database;
      var after := SettingWritten(t, id, key, value).databases[name];
      MoreKeys(t.databases[name], after, releases);
      DatabaseGrows(t, name, after, releases);
    }
  }

  lemma AccountsKeepTables(t: Tables, u: Tables, releases: set<Code>)
    requires TablesOk(t, releases) && u == t.(accounts := u.accounts)
    ensures TablesOk(u, releases) && Grows(t, u, releases)
  {
    assert Grows(t, u, releases);
    forall id | id in u.rows ensures RowOk(u, id, releases) { GrownKeepsRow(t, u, id, releases); }
  }

  predicate Within(a: Action, releases: set<Code>) { a.Begins() ==> a.code in releases }

  /** What an action leaves of the tables, and that it leaves them right. */
  lemma NextGrows(s: System, a: Action, releases: set<Code>)
    requires Inv(s, releases)
    ensures var n := Next(s, a); TablesOk(n.tables, releases) && Grows(s.tables, n.tables, releases)
    ensures !a.WriteSetting? ==> KeepsSettings(s.tables, Next(s, a).tables)
  {
    var n := Next(s, a);
    match a
    case StepWalker(w, fault) =>
      if w in s.walkers { WalkerStepGrows(s.tables, s.walkers[w], fault, releases); }
    case StepMigrator(m, fault) =>
      if m in s.migrators { MigratorStepGrows(s.tables, s.migrators[m], fault, releases); }
    case WriteSetting(id, key, value) => SettingGrows(s.tables, id, key, value, releases);
    case AddAccount(_) => AccountsKeepTables(s.tables, n.tables, releases);
    case _ =>
  }

  lemma NextWalkerOk(s: System, a: Action, w: nat, releases: set<Code>)
    requires Inv(s, releases) && Within(a, releases) && w in Next(s, a).walkers
    ensures WalkerOk(Next(s, a).tables, Next(s, a).walkers[w], releases)
  {
    NextGrows(s, a, releases);
    if a.StepWalker? && a.walker == w {
      WalkerStepGrows(s.tables, s.walkers[w], a.fault, releases);
      StepKeepsClaim(s.tables, s.walkers[w], a.fault, releases);
    } else if w in s.walkers {
      GrownKeepsWalker(s.tables, Next(s, a).tables, s.walkers[w], releases);
    } else if a.BeginRepair? {
      RepairStartOk(s.tables, a.id, releases);
    }
  }

  lemma NextMigratorOk(s: System, a: Action, m: nat, releases: set<Code>)
    requires Inv(s, releases) && Within(a, releases) && m in Next(s, a).migrators
    ensures MigratorOk(Next(s, a).tables, Next(s, a).migrators[m], releases)
  {
    NextGrows(s, a, releases);
    if a.StepMigrator? && a.migrator == m {
      MigratorStepGrows(s.tables, s.migrators[m], a.fault, releases);
    } else if m in s.migrators {
      GrownKeepsMigrator(s.tables, Next(s, a).tables, s.migrators[m], releases);
    } else {
      ListedAreReached(s.tables, a.todo, a.code, releases);
    }
  }

  /** The invariant of every interleaving. */
  lemma NextKeepsInv(s: System, a: Action, releases: set<Code>)
    requires Inv(s, releases) && Within(a, releases)
    ensures Inv(Next(s, a), releases)
  {
    var n := Next(s, a);
    NextGrows(s, a, releases);
    forall w | w in n.walkers ensures WalkerOk(n.tables, n.walkers[w], releases) { NextWalkerOk(s, a, w, releases); }
    forall m | m in n.migrators ensures MigratorOk(n.tables, n.migrators[m], releases) {
      NextMigratorOk(s, a, m, releases);
    }
  }

  lemma ListedAreReached(t: Tables, todo: seq<Id>, code: Code, releases: set<Code>)
    requires TablesOk(t, releases) && code in releases
    requires forall id <- todo :: id in t.rows && t.rows[id].state == Active
    ensures MigratorOk(t, Migrator(code, todo, None), releases)
  {
    forall id | id in todo ensures id in t.rows && Reached(t, id, 3, releases) { assert RowOk(t, id, releases); }
  }

  lemma RepairStartOk(t: Tables, id: Id, releases: set<Code>)
    requires TablesOk(t, releases)
    ensures RepairStart(t, id).Ok? ==> PlaceOk(t, id, RepairStart(t, id).value, releases)
  {
    if id in t.rows { assert RowOk(t, id, releases); }
  }

  // ---- whole runs ----

  lemma GrowsTransitive(t: Tables, u: Tables, v: Tables, releases: set<Code>)
    requires Grows(t, u, releases) && Grows(u, v, releases)
    ensures Grows(t, v, releases)
  {
  }

  lemma {:induction false} RunKeepsInv(s: System, actions: seq<Action>, releases: set<Code>)
    requires Inv(s, releases) && RunsOnly(actions, releases)
    ensures Inv(Run(s, actions), releases) && Grows(s.tables, Run(s, actions).tables, releases)
    decreases |actions|
  {
    if actions != [] {
      var earlier, last := actions[..|actions| - 1], actions[|actions| - 1];
      assert last in actions && forall a <- earlier :: a in actions;
      RunKeepsInv(s, earlier, releases);
      NextKeepsInv(Run(s, earlier), last, releases);
      NextGrows(Run(s, earlier), last, releases);
      GrowsTransitive(s.tables, Run(s, earlier).tables, Run(s, actions).tables, releases);
    }
  }

  lemma ReachableIsOk(s: System, actions: seq<Action>, releases: set<Code>)
    requires Init(s) && RunsOnly(actions, releases)
    ensures Inv(Run(s, actions), releases)
  {
    assert Inv(s, releases);
    RunKeepsInv(s, actions, releases);
  }

  /**
   * A workspace that requests may reach: its one owner, its database, the schema at a head that one of
   * the releases upgrades to, the composition row of one of them, and every default of one of them.
   */
  ghost predicate Complete(t: Tables, id: Id, releases: set<Code>)
    requires id in t.rows
  {
    var db := DatabaseOf(t, id);
    && t.rows[id].database == DatabaseNameFor(id) && Owned(t, id)
    && db.Some? && AtHead(db.value, releases) && Composed(db.value, releases) && Defaulted(db.value, releases)
  }

  /**
   * In every reachable state, under any interleaving of walkers, migrations and stops, of any releases,
   * an active row is complete, and so is an unavailable one.
   */
  lemma ActiveMeansComplete(s: System, actions: seq<Action>, id: Id, releases: set<Code>)
    requires Init(s) && RunsOnly(actions, releases)
    requires id in Run(s, actions).tables.rows
    ensures var row := Run(s, actions).tables.rows[id];
      && row.state in {Provisioning, Active, Unavailable}
      && (row.state != Provisioning ==> Complete(Run(s, actions).tables, id, releases))
      && (row.state == Active <==> row.detail == StepDone(Activate))
  {
    ReachableIsOk(s, actions, releases);
    assert RowOk(Run(s, actions).tables, id, releases);
  }

  /** Where only one release ran, active means at its head, with its version and all its defaults. */
  lemma ActiveMeansAtHead(s: System, actions: seq<Action>, id: Id, code: Code)
    requires Init(s) && RunsOnly(actions, {code})
    requires id in Run(s, actions).tables.rows && Run(s, actions).tables.rows[id].state == Active
    ensures var db := DatabaseOf(Run(s, actions).tables, id);
      && db.Some? && db.value.revisions == code.head && db.value.composition == Some(code.version)
      && code.defaults.Keys <= db.value.settings.Keys
  {
    ActiveMeansComplete(s, actions, id, {code});
  }

  /** The owner committed with the row is the only member ever, whatever a retry asks for. */
  lemma OwnerIsForever(
    s: System, earlier: seq<Action>, later: seq<Action>, id: Id, account: Id, releases: set<Code>)
    requires Init(s) && RunsOnly(earlier, releases) && RunsOnly(later, releases)
    requires id in Run(s, earlier).tables.rows && OwnedBy(Run(s, earlier).tables, id, account)
    ensures var after := Run(Run(s, earlier), later).tables; id in after.rows && OwnedBy(after, id, account)
  {
    ReachableIsOk(s, earlier, releases);
    RunKeepsInv(Run(s, earlier), later, releases);
  }

  /** A `provision` that has passed its first step was called for the owner committed with the row. */
  lemma OnlyOwnersProvision(s: System, actions: seq<Action>, w: nat, releases: set<Code>)
    requires Init(s) && RunsOnly(actions, releases) && w in Run(s, actions).walkers
    ensures var n := Run(s, actions);
      var walker := n.walkers[w];
      walker.claimant.Some? && !walker.pc.AtInsert? ==> OwnedBy(n.tables, walker.id, walker.claimant.value)
  {
    ReachableIsOk(s, actions, releases);
    var n := Run(s, actions);
    assert WalkerOk(n.tables, n.walkers[w], releases);
    if n.walkers[w].claimant.Some? && !n.walkers[w].pc.AtInsert? {
      assert RowOk(n.tables, n.walkers[w].id, releases);
      var account: Id :| OwnedBy(n.tables, n.walkers[w].id, account);
    }
  }

  // ---- who takes a row out of active ----

  /** No step of a walker, however late, writes an active row; this needs no invariant. */
  lemma WalkersSpareActive(t: Tables, w: Walker, fault: Option<Fault>, id: Id)
    requires id in t.rows && t.rows[id].state == Active
    ensures var after := WalkerStep(t, w, fault).after; id in after.rows && after.rows[id] == t.rows[id]
  {
  }

  lemma WalkerActivates(t: Tables, w: Walker, fault: Option<Fault>, id: Id)
    requires id in t.rows && t.rows[id].state != Active
    ensures var after := WalkerStep(t, w, fault).after;
      && id in after.rows
      && (after.rows[id].state == Active ==>
            && w.pc.AtActivate? && w.id == id && t.rows[id].state == Provisioning
            && after.rows[id] == t.rows[id].(state := Active, detail := StepDone(Activate)))
  {
  }

  /** A row becomes active only by the last step of a walker of its own, out of provisioning. */
  lemma OnlyWalkersActivate(s: System, a: Action, id: Id)
    requires id in s.tables.rows && s.tables.rows[id].state != Active
    ensures var after := Next(s, a).tables.rows;
      && id in after
      && (after[id].state == Active ==>
            && a.StepWalker? && a.walker in s.walkers && s.walkers[a.walker].id == id
            && s.walkers[a.walker].pc.AtActivate? && s.tables.rows[id].state == Provisioning)
  {
    if a.StepWalker? && a.walker in s.walkers {
      WalkerActivates(s.tables, s.walkers[a.walker], a.fault, id);
    }
  }

  lemma MigratorSparesUntilFailure(t: Tables, m: Migrator, fault: Option<Fault>, id: Id)
    requires id in t.rows && t.rows[id].state == Active
    ensures var after := MigratorStep(t, m, fault).after;
      && id in after.rows
      && (after.rows[id] == t.rows[id] || (m.failure.Some? && m.todo != [] && m.todo[0] == id))
  {
  }

  /** Action `j` is a migration writing down, for the workspace, the failure it holds. */
  ghost predicate MarksAt(s: System, actions: seq<Action>, j: nat, id: Id) {
    && j < |actions| && actions[j].StepMigrator?
    && var n := Run(s, actions[..j]);
       && actions[j].migrator in n.migrators
       && var m := n.migrators[actions[j].migrator];
          m.failure.Some? && m.todo != [] && m.todo[0] == id
  }

  /** Action `k` is a migration whose chain fails, with that detail, on the workspace's own database. */
  ghost predicate ChainFailsAt(s: System, actions: seq<Action>, k: nat, migrator: nat, id: Id, detail: Detail) {
    && k < |actions| && actions[k].StepMigrator? && actions[k].migrator == migrator
    && var n := Run(s, actions[..k]);
       && migrator in n.migrators && id in n.tables.rows
       && var m := n.migrators[migrator];
          && m.todo != [] && m.todo[0] == id && m.failure.None?
          && var chain := RunChain(n.tables, n.tables.rows[id].database, m.code, actions[k].fault);
             chain.Err? && FailureDetail(chain.error) == detail
  }

  /** One action writes an active row only by marking it. */
  lemma NextSparesActive(s: System, a: Action, id: Id)
    requires id in s.tables.rows && s.tables.rows[id].state == Active
    ensures var after := Next(s, a).tables;
      && id in after.rows
      && (after.rows[id] != s.tables.rows[id] ==>
            && a.StepMigrator? && a.migrator in s.migrators
            && var m := s.migrators[a.migrator]; m.failure.Some? && m.todo != [] && m.todo[0] == id)
  {
    if a.StepWalker? && a.walker in s.walkers {
      WalkersSpareActive(s.tables, s.walkers[a.walker], a.fault, id);
    } else if a.StepMigrator? && a.migrator in s.migrators {
      MigratorSparesUntilFailure(s.tables, s.migrators[a.migrator], a.fault, id);
    }
  }

  /** A row that was active and is not as it was has been marked in between. */
  lemma {:induction false} ChangedRowWasMarked(s: System, actions: seq<Action>, i: nat, id: Id) returns (j: nat)
    requires i <= |actions| && id in Run(s, actions[..i]).tables.rows
    requires Run(s, actions[..i]).tables.rows[id].state == Active
    requires id !in Run(s, actions).tables.rows
          || Run(s, actions).tables.rows[id] != Run(s, actions[..i]).tables.rows[id]
    ensures i <= j && MarksAt(s, actions, j, id)
    decreases |actions|
  {
    assert actions[..|actions|] == actions;
    var earlier := actions[..|actions| - 1];
    assert earlier[..i] == actions[..i];
    var start, before := Run(s, actions[..i]).tables, Run(s, earlier);
    if id in before.tables.rows && before.tables.rows[id] == start.rows[id] {
      NextSparesActive(before, actions[|actions| - 1], id);
      j := |actions| - 1;
    } else {
      j := ChangedRowWasMarked(s, earlier, i, id);
      assert earlier[..j] == actions[..j];
    }
  }

  /** A migration comes to hold a failure only by a chain that fails. */
  lemma NextHoldsFailure(s: System, a: Action, migrator: nat)
    requires migrator in Next(s, a).migrators && Next(s, a).migrators[migrator].failure.Some?
    requires migrator !in s.migrators || s.migrators[migrator] != Next(s, a).migrators[migrator]
    ensures a.StepMigrator? && a.migrator == migrator && migrator in s.migrators
    ensures var m := s.migrators[migrator];
      && m.failure.None? && m.todo != [] && m.todo[0] in s.tables.rows
      && var chain := RunChain(s.tables, s.tables.rows[m.todo[0]].database, m.code, a.fault);
         chain.Err? && Next(s, a).migrators[migrator] == m.(failure := Some(FailureDetail(chain.error)))
  {
  }

  /** The failure that a migration holds is that of a chain it ran on that workspace's database. */
  lemma {:induction false} HeldFailureIsReal(s: System, actions: seq<Action>, migrator: nat) returns (k: nat)
    requires Init(s) && migrator in Run(s, actions).migrators && Run(s, actions).migrators[migrator].failure.Some?
    ensures var m := Run(s, actions).migrators[migrator];
      m.todo != [] && ChainFailsAt(s, actions, k, migrator, m.todo[0], m.failure.value)
    decreases |actions|
  {
    var earlier, last := actions[..|actions| - 1], actions[|actions| - 1];
    var before, now := Run(s, earlier), Run(s, actions);
    if migrator in before.migrators && before.migrators[migrator] == now.migrators[migrator] {
      k := HeldFailureIsReal(s, earlier, migrator);
      assert earlier[..k] == actions[..k];
    } else {
      NextHoldsFailure(before, last, migrator);
      k := |actions| - 1;
    }
  }

  /** Action `k` found the chain failing on the workspace's own database, and action `j` wrote that down. */
  ghost predicate FailedThenMarked(s: System, actions: seq<Action>, k: nat, j: nat, id: Id) {
    && k < j && MarksAt(s, actions, j, id)
    && var m := Run(s, actions[..j]).migrators[actions[j].migrator];
       ChainFailsAt(s, actions, k, actions[j].migrator, id, m.failure.value)
  }

  lemma FailedEarlier(
    s: System, actions: seq<Action>, j: nat, k: nat, migrator: nat, id: Id, detail: Detail)
    requires j <= |actions| && ChainFailsAt(s, actions[..j], k, migrator, id, detail)
    ensures k < j && ChainFailsAt(s, actions, k, migrator, id, detail)
  {
    assert actions[..j][..k] == actions[..k];
  }

  /**
   * Over every run, a row that was active leaves that state, or changes at all, only because a migration
   * marked it, after its chain had failed on that workspace's own database.
   */
  lemma ActiveUntilMigrationFails(s: System, actions: seq<Action>, i: nat, id: Id)
    requires Init(s) && i <= |actions| && id in Run(s, actions[..i]).tables.rows
    requires Run(s, actions[..i]).tables.rows[id].state == Active
    requires id !in Run(s, actions).tables.rows
          || Run(s, actions).tables.rows[id] != Run(s, actions[..i]).tables.rows[id]
    ensures exists j: nat, k: nat :: i <= j && FailedThenMarked(s, actions, k, j, id)
  {
    var j := ChangedRowWasMarked(s, actions, i, id);
    var m := Run(s, actions[..j]).migrators[actions[j].migrator];
    var k := HeldFailureIsReal(s, actions[..j], actions[j].migrator);
    FailedEarlier(s, actions, j, k, actions[j].migrator, id, m.failure.value);
    assert FailedThenMarked(s, actions, k, j, id);
  }

  // ---- a database ahead of the code ----

  /** Every process under way is of one of the releases. */
  predicate ProcessesIn(s: System, releases: set<Code>) {
    && (forall w <- s.walkers :: s.walkers[w].code in releases)
    && (forall m <- s.migrators :: s.migrators[m].code in releases)
  }

  /** A database that records a revision none of the releases knows. */
  predicate Ahead(t: Tables, name: DatabaseName, revision: Revision, releases: set<Code>) {
    && name in t.databases && revision in t.databases[name].revisions
    && forall c <- releases :: revision !in c.known
  }

  predicate SameSchema(t: Tables, u: Tables, name: DatabaseName)
    requires name in t.databases
  {
    && name in u.databases && u.databases[name].revisions == t.databases[name].revisions
    && u.databases[name].composition == t.databases[name].composition
  }

  lemma WalkerLeavesAhead(
    t: Tables, w: Walker, fault: Option<Fault>, name: DatabaseName, revision: Revision, releases: set<Code>)
    requires Ahead(t, name, revision, releases) && w.code in releases
    ensures SameSchema(t, WalkerStep(t, w, fault).after, name)
  {
  }

  lemma MigratorLeavesAhead(
    t: Tables, m: Migrator, fault: Option<Fault>, name: DatabaseName, revision: Revision, releases: set<Code>)
    requires Ahead(t, name, revision, releases) && m.code in releases
    ensures SameSchema(t, MigratorStep(t, m, fault).after, name)
  {
  }

  lemma NextLeavesAhead(s: System, a: Action, name: DatabaseName, revision: Revision, releases: set<Code>)
    requires Ahead(s.tables, name, revision, releases) && ProcessesIn(s, releases) && Within(a, releases)
    ensures SameSchema(s.tables, Next(s, a).tables, name) && ProcessesIn(Next(s, a), releases)
  {
    if a.StepWalker? && a.walker in s.walkers {
      WalkerLeavesAhead(s.tables, s.walkers[a.walker], a.fault, name, revision, releases);
    } else if a.StepMigrator? && a.migrator in s.migrators {
      MigratorLeavesAhead(s.tables, s.migrators[a.migrator], a.fault, name, revision, releases);
    }
  }

  /**
   * A database that records a revision that no running release knows is never upgraded: over any run of
   * those releases its revisions and its composition stay what they are.
   */
  lemma {:induction false} AheadIsNeverUpgraded(
    s: System, actions: seq<Action>, name: DatabaseName, revision: Revision, releases: set<Code>)
    requires Ahead(s.tables, name, revision, releases) && ProcessesIn(s, releases) && RunsOnly(actions, releases)
    ensures SameSchema(s.tables, Run(s, actions).tables, name) && ProcessesIn(Run(s, actions), releases)
    decreases |actions|
  {
    if actions != [] {
      var earlier, last := actions[..|actions| - 1], actions[|actions| - 1];
      assert last in actions && forall a <- earlier :: a in actions;
      AheadIsNeverUpgraded(s, earlier, name, revision, releases);
      NextLeavesAhead(Run(s, earlier), last, name, revision, releases);
    }
  }

  // ---- the migration loop from a reachable state ----

  /** Rows named after their workspaces never share a database. */
  lemma NamedRowsAreDistinct(t: Tables, releases: set<Code>)
    requires TablesOk(t, releases)
    ensures DatabasesDistinct(t)
  {
    forall a, b | a in t.rows && b in t.rows && t.rows[a].database == t.rows[b].database ensures a == b {
      assert RowOk(t, a, releases) && RowOk(t, b, releases);
      DatabaseNamesDiffer(a, b);
    }
  }

  /** In every reachable state the migration loop treats each workspace by itself. */
  lemma ReachableMigrationLoop(
    s: System, actions: seq<Action>, releases: set<Code>, listing: seq<Id>, code: Code, faults: map<Id, Fault>)
    requires Init(s) && RunsOnly(actions, releases) && ListsActive(Run(s, actions).tables, listing)
    ensures var t := Run(s, actions).tables;
      var sweep := MigratedAll(t, listing, code, faults);
      && (forall k | 0 <= k < |listing| ::
            && listing[k] in t.rows
            && MigratedAlone(t, sweep.after, listing[k], code, FaultOf(faults, listing[k]), sweep.results[k]))
      && (forall id <- t.rows :: t.rows[id].state != Active ==> Untouched(t, sweep.after, id))
  {
    ReachableIsOk(s, actions, releases);
    NamedRowsAreDistinct(Run(s, actions).tables, releases);
    MigrationLoop(Run(s, actions).tables, listing, code, faults);
  }

  // ---- the sequential programs are the undisturbed runs ----

  function Rank(pc: Pc): nat {
    match pc
    case AtInsert(_, _) => 9
    case AtCreate => 8
    case AtExistsCheck => 7
    case AtMigrate => 5
    case AtSettings => 3
    case AtActivate => 1
    case AtRecord(step) => if step == CreateDatabase then 6 else if step == MigrateCore then 4 else 2
  }

  /** One walker alone, to its end, and the outcome of its last transaction. */
  function Drive(t: Tables, id: Id, pc: Pc, code: Code, fault: Option<Fault>): Effect
    decreases Rank(pc)
  {
    var p := WalkerStep(t, Walker(id, None, code, pc), fault);
    if p.next.None? then Effect(p.after, p.outcome) else Drive(p.after, id, p.next.value, code, fault)
  }

  /** A `provision` that nothing disturbs is the sequential one. */
  lemma DriveIsProvision(t: Tables, id: Id, request: Request)
    ensures Drive(t, id, AtInsert(request.owner, request.slug), request.code, request.fault)
         == Walked(t, id, PROVISION_STEPS, request)
  {
    assert PROVISION_STEPS[0..] == PROVISION_STEPS;
    var e := InsertRow(t, id, request.owner, request.slug);
    if e.outcome.Done? { DriveStep(e.after, id, 1, request); }
  }

  lemma DriveStep(t: Tables, id: Id, i: nat, request: Request)
    requires 1 <= i < 5
    ensures Drive(t, id, PcOf(PROVISION_STEPS[i]), request.code, request.fault)
         == Walked(t, id, PROVISION_STEPS[i..], request)
    decreases 5 - i
  {
    var step, rest := PROVISION_STEPS[i], PROVISION_STEPS[i..];
    assert rest[0] == step && rest[1..] == PROVISION_STEPS[i + 1..];
    var e := RunStep(t, id, step, request);
    if i < 4 { DriveStep(e.after, id, i + 1, request); }
    if id in t.rows && i < 4 { DriveOne(t, id, step, request); }
  }

  /** The transactions of one step, in turn, are the step. */
  ghost predicate DrivesStep(t: Tables, id: Id, step: Step, request: Request)
    requires id in t.rows && step != InsertRegistryRow && step != Activate
  {
    var e := RunStep(t, id, step, request);
    Drive(t, id, PcOf(step), request.code, request.fault)
    == if e.outcome.Done? then Drive(e.after, id, AfterRecord(step).value, request.code, request.fault) else e
  }

  lemma DriveOne(t: Tables, id: Id, step: Step, request: Request)
    requires id in t.rows && step != InsertRegistryRow && step != Activate
    ensures DrivesStep(t, id, step, request)
  {
  }

  /** A repair that nothing disturbs is the sequential `repair`: the same tables, and the same outcome. */
  lemma DriveIsRepair(t: Tables, id: Id, request: Request)
    ensures var start := RepairStart(t, id);
      Repaired(t, id, request)
      == if start.Ok? then Drive(t, id, start.value, request.code, request.fault) else Effect(t, start.error)
  {
    if id in t.rows {
      var row := t.rows[id];
      if row.state == Unavailable {
        DriveStep(t, id, 2, request);
      } else if row.state == Provisioning {
        var i := if row.detail.StepDone? then StepIndex(row.detail.step) + 1 else 1;
        if i < 5 { DriveStep(t, id, i, request); }
      }
    }
  }

  /** One migration alone, to its end. */
  function DriveMigration(t: Tables, m: Migrator, faults: map<Id, Fault>): Tables
    decreases |m.todo|, m.failure.None?
  {
    var p := MigratorStep(t, m, if m.todo == [] then None else FaultOf(faults, m.todo[0]));
    if p.next.None? then p.after else DriveMigration(p.after, p.next.value, faults)
  }

  /** The first workspace's chain, and what is written down when it fails, are `migrate_workspace`. */
  lemma DriveVisit(t: Tables, code: Code, listing: seq<Id>, faults: map<Id, Fault>)
    requires listing != [] && listing[0] in t.rows
    ensures DriveMigration(t, Migrator(code, listing, None), faults)
         == DriveMigration(Migrated(t, listing[0], code, FaultOf(faults, listing[0])).after,
                           Migrator(code, listing[1..], None), faults)
  {
    var failure := RunChain(t, t.rows[listing[0]].database, code, FaultOf(faults, listing[0]));
    if failure.Err? {
      var m := Migrator(code, listing, Some(FailureDetail(failure.error)));
      assert DriveMigration(t, Migrator(code, listing, None), faults) == DriveMigration(t, m, faults);
    }
  }

  /** The loop, seen from its first workspace. */
  lemma {:induction false} SweepFromFirst(t: Tables, listing: seq<Id>, code: Code, faults: map<Id, Fault>)
    requires listing != []
    ensures var first := Migrated(t, listing[0], code, FaultOf(faults, listing[0]));
      MigratedAll(t, listing, code, faults).after == MigratedAll(first.after, listing[1..], code, faults).after
    decreases |listing|
  {
    var earlier := listing[..|listing| - 1];
    if |listing| == 1 {
      assert earlier == [] && listing[1..] == [];
    } else {
      SweepFromFirst(t, earlier, code, faults);
      assert earlier[1..] == listing[1..][..|listing| - 2];
    }
  }

  /** A migration that nothing disturbs is the sequential loop. */
  lemma {:induction false} DriveIsMigration(t: Tables, listing: seq<Id>, code: Code, faults: map<Id, Fault>)
    requires forall id <- listing :: id in t.rows
    ensures DriveMigration(t, Migrator(code, listing, None), faults) == MigratedAll(t, listing, code, faults).after
    decreases |listing|
  {
    if listing != [] {
      var after := Migrated(t, listing[0], code, FaultOf(faults, listing[0])).after;
      DriveVisit(t, code, listing, faults);
      SweepFromFirst(t, listing, code, faults);
      assert forall id <- listing[1..] :: id in listing;
      DriveIsMigration(after, listing[1..], code, faults);
    }
  }

  // ---- repair converges ----

  predicate OnlyWorkspace(t: Tables, u: Tables, id: Id)
    requires id in t.rows
  {
    && u.rows.Keys == t.rows.Keys && u == t.(rows := u.rows, databases := u.databases)
    && (forall other <- t.rows :: other != id ==> u.rows[other] == t.rows[other])
    && (forall name <- t.databases ::
          name != t.rows[id].database ==> name in u.databases && u.databases[name] == t.databases[name])
    && u.databases.Keys == t.databases.Keys + {t.rows[id].database}
  }

  /** The chain would succeed: nothing it does not know is recorded, and no revision raises. */
  predicate ChainSucceeds(t: Tables, id: Id, request: Request)
    requires id in t.rows
  {
    && request.code.Valid() && request.fault.None?
    && (DatabaseOf(t, id).Some? ==> DatabaseOf(t, id).value.revisions <= request.code.known)
  }

  /** What a finished repair leaves: an active row, with everything its state stands for. */
  ghost predicate Finished(t: Tables, e: Effect, id: Id, releases: set<Code>)
    requires id in t.rows
  {
    && e.outcome.Done? && OnlyWorkspace(t, e.after, id) && KeepsSettings(t, e.after)
    && e.after.rows[id] == t.rows[id].(state := Active, detail := StepDone(Activate))
    && Reached(e.after, id, 3, releases)
  }

  /** What repair's step number `i` leaves when its chain succeeds. */
  predicate StepFinished(t: Tables, e: Effect, id: Id, i: nat, request: Request, releases: set<Code>)
    requires 1 <= i < 5 && id in t.rows
  {
    var state := if i == 4 then Active else Provisioning;
    && e.outcome.Done? && OnlyWorkspace(t, e.after, id) && KeepsSettings(t, e.after)
    && e.after.rows[id] == t.rows[id].(state := state, detail := StepDone(PROVISION_STEPS[i]))
    && Reached(e.after, id, if i == 4 then 3 else i, releases) && ChainSucceeds(e.after, id, request)
  }

  /** The row's part of a step: the database named by the row becomes `db`, and the step is recorded. */
  lemma RecordFinishes(t: Tables, id: Id, i: nat, db: Db, request: Request, releases: set<Code>)
    requires 1 <= i < 4 && id in t.rows && t.rows[id].state in RECORD_EXPECTED
    requires request.code.Valid() && request.fault.None? && db.revisions <= request.code.known
    requires DatabaseOf(t, id).Some? ==> SettingsKept(DatabaseOf(t, id).value.settings, db.settings)
    requires i >= 2 ==> AtHead(db, releases) && Composed(db, releases)
    requires i >= 3 ==> Defaulted(db, releases)
    ensures var u := t.(databases := t.databases[t.rows[id].database := db]);
      StepFinished(t, RecordStep(u, id, PROVISION_STEPS[i]), id, i, request, releases)
  {
    var u := t.(databases := t.databases[t.rows[id].database := db]);
    assert DatabaseOf(RecordStep(u, id, PROVISION_STEPS[i]).after, id) == Some(db);
  }

  /** The release's own processes and their requests. */
  predicate Serves(request: Request, releases: set<Code>) {
    request.code in releases && forall c <- releases :: c.Valid()
  }

  lemma CreateFinishes(t: Tables, id: Id, request: Request, releases: set<Code>)
    requires id in t.rows && ChainSucceeds(t, id, request) && t.rows[id].state == Provisioning
    ensures StepFinished(t, StepCreateDatabase(t, id), id, 1, request, releases)
  {
    var name := t.rows[id].database;
    var db := if name in t.databases then t.databases[name] else EMPTY_DB;
    assert EnsureDatabase(t, name) == t.(databases := t.databases[name := db]);
    RecordFinishes(t, id, 1, db, request, releases);
  }

  lemma MigrateFinishes(t: Tables, id: Id, request: Request, releases: set<Code>)
    requires id in t.rows && Reached(t, id, 1, releases) && ChainSucceeds(t, id, request)
    requires t.rows[id].state in RECORD_EXPECTED && Serves(request, releases)
    ensures StepFinished(t, StepMigrateCore(t, id, request), id, 2, request, releases)
  {
    var db := DatabaseOf(t, id).value;
    ChainGrows(db, request.code, Some(request.code.version), releases);
    var after := db.(revisions := request.code.head, composition := Some(request.code.version));
    RecordFinishes(t, id, 2, after, request, releases);
  }

  lemma SettingsFinishes(t: Tables, id: Id, request: Request, releases: set<Code>)
    requires id in t.rows && Reached(t, id, 2, releases) && ChainSucceeds(t, id, request)
    requires t.rows[id].state in RECORD_EXPECTED && Serves(request, releases)
    ensures StepFinished(t, StepWriteDefaultSettings(t, id, request.code.defaults), id, 3, request, releases)
  {
    var db := DatabaseOf(t, id).value;
    DefaultsGrow(db, request.code, releases);
    RecordFinishes(t, id, 3, db.(settings := request.code.defaults + db.settings), request, releases);
  }

  lemma StepFinishes(t: Tables, id: Id, i: nat, request: Request, releases: set<Code>)
    requires 1 <= i < 5 && id in t.rows && Reached(t, id, i - 1, releases)
    requires ChainSucceeds(t, id, request) && Serves(request, releases)
    requires t.rows[id].state == Provisioning || (t.rows[id].state == Unavailable && 2 <= i < 4)
    ensures StepFinished(t, RunStep(t, id, PROVISION_STEPS[i], request), id, i, request, releases)
  {
    if i == 1 {
      CreateFinishes(t, id, request, releases);
    } else if i == 2 {
      MigrateFinishes(t, id, request, releases);
    } else if i == 3 {
      SettingsFinishes(t, id, request, releases);
    }
  }

  lemma {:induction false} WalkFinishes(t: Tables, id: Id, i: nat, request: Request, releases: set<Code>)
    requires 1 <= i < 5 && id in t.rows && Reached(t, id, i - 1, releases)
    requires ChainSucceeds(t, id, request) && Serves(request, releases)
    requires t.rows[id].state == Provisioning || (t.rows[id].state == Unavailable && 2 <= i < 4)
    ensures Finished(t, Walked(t, id, PROVISION_STEPS[i..], request), id, releases)
    decreases 5 - i
  {
    var rest := PROVISION_STEPS[i..];
    assert rest[0] == PROVISION_STEPS[i] && rest[1..] == PROVISION_STEPS[i + 1..];
    StepFinishes(t, id, i, request, releases);
    var e := RunStep(t, id, PROVISION_STEPS[i], request);
    if i < 4 {
      WalkFinishes(e.after, id, i + 1, request, releases);
      var f := Walked(e.after, id, PROVISION_STEPS[i + 1..], request);
      SettingsKeptTransitive(t, e.after, f.after);
    }
  }

  lemma SettingsKeptTransitive(t: Tables, u: Tables, v: Tables)
    requires KeepsSettings(t, u) && KeepsSettings(u, v)
    ensures KeepsSettings(t, v)
  {
  }

  lemma RepairFinishes(t: Tables, id: Id, request: Request, releases: set<Code>)
    requires TablesOk(t, releases) && id in t.rows && t.rows[id].state in {Provisioning, Unavailable}
    requires ChainSucceeds(t, id, request) && Serves(request, releases)
    ensures Finished(t, Repaired(t, id, request), id, releases)
  {
    assert RowOk(t, id, releases);
    var i := if t.rows[id].state == Unavailable then 2 else StepIndex(t.rows[id].detail.step) + 1;
    WalkFinishes(t, id, i, request, releases);
  }

  /** The database is at the head and the version of the release, and has every default of it. */
  predicate AtRelease(t: Tables, id: Id, code: Code)
    requires id in t.rows
  {
    var db := DatabaseOf(t, id);
    && db.Some? && db.value.revisions == code.head && db.value.composition == Some(code.version)
    && code.defaults.Keys <= db.value.settings.Keys
  }

  lemma RepairUpgrades(t: Tables, id: Id, request: Request, releases: set<Code>)
    requires TablesOk(t, releases) && id in t.rows && t.rows[id].state in {Provisioning, Unavailable}
    requires t.rows[id].detail !in {StepDone(MigrateCore), StepDone(WriteDefaultSettings)}
    requires ChainSucceeds(t, id, request)
    ensures var after := Repaired(t, id, request).after; id in after.rows && AtRelease(after, id, request.code)
  {
    assert StateOk(t, id, t.rows[id].state, t.rows[id].detail, releases) by { assert RowOk(t, id, releases); }
    Outcomes.RepairOutcome(t, id, request);
    var from := if t.rows[id].state == Unavailable || t.rows[id].detail == StepDone(CreateDatabase) then t
                else Outcomes.Prepared(t, id);
    UpgradeIsAtRelease(from, Repaired(t, id, request), id, request);
  }

  lemma UpgradeIsAtRelease(t: Tables, e: Effect, id: Id, request: Request)
    requires id in t.rows && Outcomes.UpgradesOrRefuses(t, e, id, request)
    requires DatabaseOf(t, id).Some? && ChainReachesHead(DatabaseOf(t, id), request.code, request.fault)
    ensures id in e.after.rows && AtRelease(e.after, id, request.code)
  {
  }

  /**
   * From every reachable state in which a row is provisioning or unavailable, one undisturbed repair
   * whose chain succeeds makes it active and complete, keeps every existing setting and touches no other
   * workspace. Where the chain had still to run, the database is then at the head and the version, and has
   * the defaults, of the release that repaired. A second repair, under any release, changes nothing.
   */
  lemma RepairConverges(
    s: System, actions: seq<Action>, id: Id, request: Request, again: Request, releases: set<Code>)
    requires Init(s) && RunsOnly(actions, releases) && Serves(request, releases)
    requires var t := Run(s, actions).tables;
      id in t.rows && t.rows[id].state in {Provisioning, Unavailable} && ChainSucceeds(t, id, request)
    ensures var t := Run(s, actions).tables;
      var e := Repaired(t, id, request);
      && Finished(t, e, id, releases) && Repaired(e.after, id, again) == Effect(e.after, Done)
      && (t.rows[id].detail !in {StepDone(MigrateCore), StepDone(WriteDefaultSettings)} ==>
            AtRelease(e.after, id, request.code))
  {
    ReachableIsOk(s, actions, releases);
    var t := Run(s, actions).tables;
    RepairFinishes(t, id, request, releases);
    if t.rows[id].detail !in {StepDone(MigrateCore), StepDone(WriteDefaultSettings)} {
      RepairUpgrades(t, id, request, releases);
    }
    ActiveNeedsNoRepair(Repaired(t, id, request).after, id, again);
  }

  lemma ActiveNeedsNoRepair(t: Tables, id: Id, request: Request)
    requires id in t.rows && t.rows[id].state == Active
    ensures Repaired(t, id, request) == Effect(t, Done)
  {
  }
}
