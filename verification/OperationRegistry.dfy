/** The operation table: what may be registered under which origin, and which context may run what. */
module OperationRegistry {
  import opened Text
  import opened Uuid
  import RecordReferences

  datatype Role = Owner | Member | Operator | Service

  datatype ActorKind = AccountActor | TokenActor | OperatorActor | SystemActor | ConnectionActor

  datatype Safety = Read | Draft | Mutate | Destructive | External | Financial

  datatype OperationName = OperationName(text: string)

  /** Every operation, or a fixed set of names. */
  datatype OperationSet = AllOperations | Only(names: set<OperationName>)

  /** The fields of `WorkspaceContext` that a decision here reads. */
  datatype Context = Context(
    workspace: Id, actorKind: ActorKind, actor: Option<Id>, role: Role, operations: OperationSet, modules: set<string>)

  /** `inputNames` holds every field name and alias of the input model; `code` stands for the handler. */
  datatype Declaration = Declaration(
    safety: Safety, roles: set<Role>, inputNames: set<string>, allowsExtra: bool, code: nat)

  datatype Registered = Registered(declaration: Declaration, origin: string, owner: string)

  type Operations = map<OperationName, Registered>

  const CORE := "core"
  const HARNESS := "harness"
  const TEST_HARNESS_ORIGIN := "test_harness"

  const RESERVED_INPUT_FIELDS := {
    "workspace_id", "workspace", "actor_id", "actor", "tenant_id", "database", "schema", "connection_string", "dsn",
    "sql", "table_name", "statement"
  }

  datatype Refusal =
    | ContextRequired | OperationUnknown | OperationNotPermitted | ModuleDisabled | RoleNotPermitted

  /** `authorize` */
  function Authorize(operations: Operations, ctx: Context, name: OperationName): Result<Registered, Refusal> {
    if name !in operations then Err(OperationUnknown)
    else if ctx.operations.Only? && name !in ctx.operations.names then Err(OperationNotPermitted)
    else if operations[name].owner != CORE && operations[name].owner !in ctx.modules then Err(ModuleDisabled)
    else if ctx.role !in operations[name].declaration.roles then Err(RoleNotPermitted)
    else Ok(operations[name])
  }

  /** `<module_id>.<noun>.<verb>` */
  predicate IsOperationName(name: OperationName) {
    var parts := Split(name.text, '.');
    |parts| == 3 && forall part <- parts :: RecordReferences.IsSegment(part)
  }

  function ModuleOf(name: OperationName): string { Split(name.text, '.')[0] }

  function ModuleForOrigin(origin: string): string {
    if origin == TEST_HARNESS_ORIGIN then HARNESS else origin
  }

  /** `check_origin`; the empty origin is refused as well, by `module_id_for_origin`. */
  predicate OriginAllowed(origin: string, owner: string, testProfile: bool) {
    && origin != "" && owner == ModuleForOrigin(origin)
    && (owner == HARNESS ==> origin == TEST_HARNESS_ORIGIN)
    && (owner == CORE ==> origin == CORE)
    && (origin == TEST_HARNESS_ORIGIN ==> testProfile)
  }

  predicate Acceptable(name: OperationName, declaration: Declaration, origin: string, testProfile: bool) {
    && IsOperationName(name) && OriginAllowed(origin, ModuleOf(name), testProfile)
    && declaration.inputNames !! RESERVED_INPUT_FIELDS && !declaration.allowsExtra
  }

  datatype Registration = Registration(name: OperationName, declaration: Declaration, origin: string, testProfile: bool)

  /** `register`: the table afterwards. A name already taken keeps what it has. */
  function AfterRegister(operations: Operations, r: Registration): Operations {
    if !Acceptable(r.name, r.declaration, r.origin, r.testProfile) || r.name in operations then operations
    else operations[r.name := Registered(r.declaration, r.origin, ModuleOf(r.name))]
  }

  class Registry {
    var operations: Operations

    constructor ()
      ensures operations == map[]
    {
      operations := map[];
    }

    /** Whether the registration was accepted; registering the same thing again is. */
    method Register(r: Registration) returns (accepted: bool)
      modifies this
      ensures operations == AfterRegister(old(operations), r)
      ensures accepted <==>
        && Acceptable(r.name, r.declaration, r.origin, r.testProfile)
        && operations[r.name] == Registered(r.declaration, r.origin, ModuleOf(r.name))
    {
      if !IsOperationName(r.name) {
        return false;
      }
      var owner := ModuleOf(r.name);
      if !OriginAllowed(r.origin, owner, r.testProfile) {
        return false;
      }
      if !(r.declaration.inputNames !! RESERVED_INPUT_FIELDS) || r.declaration.allowsExtra {
        return false;
      }
      var candidate := Registered(r.declaration, r.origin, owner);
      if r.name in operations {
        return operations[r.name] == candidate;
      }
      operations := operations[r.name := candidate];
      return true;
    }
  }

  function AfterAll(operations: Operations, rs: seq<Registration>): Operations
    decreases |rs|
  {
    if rs == [] then operations else AfterRegister(AfterAll(operations, rs[..|rs| - 1]), rs[|rs| - 1])
  }

  /** What every entry of the table satisfies. */
  predicate Sound(operations: Operations) {
    forall name <- operations ::
      && IsOperationName(name) && operations[name].owner == ModuleOf(name)
      && (operations[name].owner == CORE <==> operations[name].origin == CORE)
      && (operations[name].owner == HARNESS <==> operations[name].origin == TEST_HARNESS_ORIGIN)
      && operations[name].declaration.inputNames !! RESERVED_INPUT_FIELDS && !operations[name].declaration.allowsExtra
  }

  /**
   * After any registrations, under any origins: a `core.` name came from the core and a `harness.` name
   * from the test harness, no input model takes a field that names storage or identity, and what a name
   * was first registered as is what it stays.
   */
  lemma {:induction false} RegistrationsAreSound(operations: Operations, rs: seq<Registration>)
    requires Sound(operations)
    ensures Sound(AfterAll(operations, rs))
    ensures forall name <- operations ::
      name in AfterAll(operations, rs) && AfterAll(operations, rs)[name] == operations[name]
    decreases |rs|
  {
    if rs != [] {
      RegistrationsAreSound(operations, rs[..|rs| - 1]);
      OwnersFollowOrigins(rs[|rs| - 1]);
    }
  }

  /**
   * Which registrations of a free name are accepted: a well-formed name under its module's own origin, the
   * test harness's only in the test profile, and an input model that takes no reserved field and no extra.
   */
  lemma FreeNamesAreDecided(operations: Operations, r: Registration)
    requires r.name !in operations
    ensures var after, owner := AfterRegister(operations, r), ModuleOf(r.name);
      && (r.name in after <==>
            && IsOperationName(r.name)
            && (if owner == HARNESS then r.origin == TEST_HARNESS_ORIGIN && r.testProfile
                else r.origin == owner != TEST_HARNESS_ORIGIN)
            && r.declaration.inputNames !! RESERVED_INPUT_FIELDS && !r.declaration.allowsExtra)
      && (r.name in after ==> after == operations[r.name := Registered(r.declaration, r.origin, owner)])
  {
    if IsOperationName(r.name) {
      assert RecordReferences.IsSegment(Split(r.name.text, '.')[0]);
    }
  }

  lemma OwnersFollowOrigins(r: Registration)
    ensures Acceptable(r.name, r.declaration, r.origin, r.testProfile) ==>
      && (ModuleOf(r.name) == CORE <==> r.origin == CORE)
      && (ModuleOf(r.name) == HARNESS <==> r.origin == TEST_HARNESS_ORIGIN)
  {
  }

  /** Without the test profile nothing is ever registered from the test harness. */
  lemma {:induction false} NoHarnessInProduction(rs: seq<Registration>)
    requires forall r <- rs :: !r.testProfile
    ensures forall name <- AfterAll(map[], rs) :: AfterAll(map[], rs)[name].origin != TEST_HARNESS_ORIGIN
    decreases |rs|
  {
    if rs != [] {
      var earlier, last := rs[..|rs| - 1], rs[|rs| - 1];
      assert last in rs && forall r <- earlier :: r in rs;
      NoHarnessInProduction(earlier);
    }
  }
}
