/** `dispatch`: authorize, validate, run the handler in one unit of work, commit. */
module Dispatch {
  import opened Text
  import opened Uuid
  import opened OperationRegistry
  import opened SettingsSchema
  import opened SettingsResolver
  import opened UnitsOfWork
  import Tables = WorkspaceTables

  type DatabaseName = Tables.DatabaseName

  /** The declared settings keys and the deployment's values for them. */
  datatype Declared = Declared(registry: SettingsSchema.Registry, values: Values) {
    predicate Valid() { ValidRegistry(registry) && ValidDeployment(registry, values) }
  }

  type Layer = d: Declared | d.Valid() witness Declared(map[], map[])

  datatype Composition = Composition(version: string, contract: int)

  datatype ModuleState = ModuleState(owner: string, package: string, state: string)

  /** `versions` lists the applied steps, oldest first. */
  datatype ModuleVersion = ModuleVersion(owner: string, schemaVersion: string)

  /** A workspace database, as far as the core operations read and write it. */
  datatype Contents = Contents(
    composition: Option<Composition>, modules: seq<ModuleState>, versions: seq<ModuleVersion>,
    settings: Rows, members: map<Id, Rows>)

  /** A payload value: one that a settings key may hold, or anything else. */
  datatype Json = Plain(value: Value) | OtherJson

  type Payload = map<string, Json>

  datatype InputModel = NoFieldsModel | SettingWriteModel

  datatype Input = NoFields | SettingWrite(key: string, value: Value)

  /** `model_validate`: keys that the model does not declare are dropped. */
  function Validated(model: InputModel, payload: Option<Payload>): Option<Input> {
    match model
    case NoFieldsModel => Some(NoFields)
    case SettingWriteModel =>
      if payload.None? || "key" !in payload.value || "value" !in payload.value then None
      else match (payload.value["key"], payload.value["value"])
        case (Plain(Str(key)), Plain(value)) => Some(SettingWrite(key, value))
        case _ => None
  }

  datatype ModuleStatus = ModuleStatus(owner: string, package: string, state: string, schemaVersion: Option<string>)

  datatype Output =
    | Status(composition: Composition, modules: seq<ModuleStatus>)
    | Written(key: string, value: Value, scope: Scope)

  datatype OutputModel = StatusModel | WrittenModel

  predicate Instance(output: Output, model: OutputModel) {
    match model
    case StatusModel => output.Status?
    case WrittenModel => output.Written?
  }

  /** How a handler ends, with the contents that its open transaction then has. */
  datatype Ending =
    | Returned(working: Contents, output: Output)
    | Declined(working: Contents, state: string)
    | Raised(working: Contents)

  /** A handler sees its context, the deployment layer, the open transaction and its input, and never commits. */
  datatype Handling = Handling(input: InputModel, output: OutputModel, run: (Context, Layer, Contents, Input) -> Ending)

  /** What is fixed when the process starts. */
  datatype Process = Process(operations: Operations, code: nat -> Handling, verifyDatabase: bool)

  datatype RegistryRow = RegistryRow(database: DatabaseName, state: Tables.WorkspaceState)

  /** `engines`: cached engines whose connections go elsewhere than the name they are cached under says. */
  datatype World = World(
    rows: map<Id, RegistryRow>, databases: map<DatabaseName, Contents>,
    engines: map<DatabaseName, DatabaseName>, layer: Layer)

  datatype Call = Call(context: Option<Context>, name: OperationName, payload: Option<Payload>, commitFails: bool)

  datatype RefusalState = NotAuthorized(why: Refusal) | InputInvalid | WorkspaceUnavailable | ByHandler(state: string)

  datatype Outcome = Succeeded(output: Output) | Refused(state: RefusalState) | OutputInvalid | HandlerFailed

  /** `dispatch` returns an outcome, or lets an exception of `__enter__` through. */
  datatype Reply = Outcome(outcome: Outcome) | Exception(why: Response)

  datatype Effect = Effect(after: World, reply: Reply)

  datatype Ready = Ready(ctx: Context, handling: Handling, input: Input)

  /** The part of dispatch before any database is opened. */
  function Admitted(p: Process, call: Call): Result<Ready, RefusalState> {
    if call.context.None? then Err(NotAuthorized(ContextRequired))
    else match Authorize(p.operations, call.context.value, call.name)
      case Err(why) => Err(NotAuthorized(why))
      case Ok(registered) =>
        var handling := p.code(registered.declaration.code);
        match Validated(handling.input, call.payload)
        case None => Err(InputInvalid)
        case Some(input) => Ok(Ready(call.context.value, handling, input))
  }

  /** `active_workspace`: the database of the row, if the row is active now. */
  function Route(w: World, id: Id): Option<DatabaseName> {
    if id in w.rows && w.rows[id].state == Tables.Active then Some(w.rows[id].database) else None
  }

  function EngineFor(w: World, name: DatabaseName): DatabaseName {
    if name in w.engines then w.engines[name] else name
  }

  /** What the transaction leaves committed, and the outcome. */
  function Settled(before: Contents, ending: Ending, model: OutputModel, commitFails: bool): (Contents, Outcome) {
    match ending
    case Returned(working, output) =>
      if !Instance(output, model) then (before, OutputInvalid)
      else if commitFails then (before, HandlerFailed)
      else (working, Succeeded(output))
    case Declined(_, state) => (before, Refused(ByHandler(state)))
    case Raised(_) => (before, HandlerFailed)
  }

  function RunReady(p: Process, w: World, ready: Ready, name: DatabaseName, commitFails: bool): Effect {
    var engine := EngineFor(w, name);
    if engine !in w.databases then Effect(w, Exception(DriverError))
    else if p.verifyDatabase && engine != name then Effect(w, Exception(Mismatch))
    else
      var before := w.databases[engine];
      var ending := ready.handling.run(ready.ctx, w.layer, before, ready.input);
      var settled := Settled(before, ending, ready.handling.output, commitFails);
      Effect(w.(databases := w.databases[engine := settled.0]), Outcome(settled.1))
  }

  function Dispatched(p: Process, w: World, call: Call): Effect {
    match Admitted(p, call)
    case Err(state) => Effect(w, Outcome(Refused(state)))
    case Ok(ready) =>
      match Route(w, ready.ctx.workspace)
      case None => Effect(w, Outcome(Refused(WorkspaceUnavailable)))
      case Some(name) => RunReady(p, w, ready, name, call.commitFails)
  }

  class Service {
    const process: Process
    const cluster: Cluster<Contents>
    var rows: map<Id, RegistryRow>
    var engines: map<DatabaseName, DatabaseName>
    var layer: Layer

    constructor (process: Process, cluster: Cluster<Contents>, layer: Layer)
      ensures this.process == process && this.cluster == cluster
      ensures rows == map[] && engines == map[] && this.layer == layer
    {
      this.process, this.cluster, this.layer := process, cluster, layer;
      rows, engines := map[], map[];
    }

    ghost function State(): World
      reads this, cluster
    {
      World(rows, cluster.databases, engines, layer)
    }

    /** The `with` block: a handler's work is committed only after its output is known to be of the declared type. */
    method RunInUnit(uow: UnitOfWork<Contents>, ready: Ready, commitFails: bool) returns (outcome: Outcome)
      requires uow.cluster == cluster && uow.connected && uow.transaction.Some?
      modifies uow, cluster
      ensures var before := old(uow.transaction).value;
        var ending := ready.handling.run(ready.ctx, layer, before, ready.input);
        var settled := Settled(before, ending, ready.handling.output, commitFails);
        && outcome == settled.1
        && cluster.databases ==
             if outcome.Succeeded? then old(cluster.databases)[uow.engine := settled.0] else old(cluster.databases)
    {
      var ending := ready.handling.run(ready.ctx, layer, uow.transaction.value, ready.input);
      var answer := uow.Work(ending.working);
      match ending
      case Returned(_, output) =>
        if !Instance(output, ready.handling.output) {
          answer := uow.Rollback();
          outcome := OutputInvalid;
        } else {
          answer := uow.Commit(commitFails);
          if answer.Fine? {
            outcome := Succeeded(output);
          } else {
            answer := uow.Rollback();
            outcome := HandlerFailed;
          }
        }
      case Declined(_, state) =>
        answer := uow.Rollback();
        outcome := Refused(ByHandler(state));
      case Raised(_) =>
        answer := uow.Rollback();
        outcome := HandlerFailed;
    }

    method Dispatch(call: Call) returns (reply: Reply)
      modifies cluster
      ensures Effect(State(), reply) == Dispatched(process, old(State()), call)
    {
      if call.context.None? {
        return Reply.Outcome(Refused(NotAuthorized(ContextRequired)));
      }
      var ctx := call.context.value;
      var authorized := Authorize(process.operations, ctx, call.name);
      if authorized.Err? {
        return Reply.Outcome(Refused(NotAuthorized(authorized.error)));
      }
      var handling := process.code(authorized.value.declaration.code);
      var input := Validated(handling.input, call.payload);
      if input.None? {
        return Reply.Outcome(Refused(InputInvalid));
      }
      if ctx.workspace !in rows || rows[ctx.workspace].state != Tables.Active {
        return Reply.Outcome(Refused(WorkspaceUnavailable));
      }
      var name := rows[ctx.workspace].database;
      var engine := if name in engines then engines[name] else name;
      var uow := new UnitOfWork<Contents>(cluster, engine, name, process.verifyDatabase);
      var entered := uow.Enter();
      if !entered.Fine? {
        return Exception(entered);
      }
      var outcome := RunInUnit(uow, Ready(ctx, handling, input.value), call.commitFails);
      uow.Exit();
      return Reply.Outcome(outcome);
    }
  }

  // ---- what a dispatch answers, and what it changes, in terms of the call and the registry ----

  predicate InOperations(ctx: Context, name: OperationName) {
    ctx.operations.AllOperations? || name in ctx.operations.names
  }

  predicate ModuleEnabled(ctx: Context, entry: Registered) { entry.owner in ctx.modules + {CORE} }

  /** The payload of a write is a text key and a value that a key may hold; other models take any payload. */
  predicate PayloadFits(model: InputModel, payload: Option<Payload>) {
    model == SettingWriteModel ==>
      && payload.Some? && {"key", "value"} <= payload.value.Keys
      && (payload.value["key"].Plain? && payload.value["key"].value.Str?) && payload.value["value"].Plain?
  }

  /** What a payload that fits says. */
  function InputOf(model: InputModel, payload: Option<Payload>): Input
    requires PayloadFits(model, payload)
  {
    if model == NoFieldsModel then NoFields
    else SettingWrite(payload.value["key"].value.text, payload.value["value"].value)
  }

  /** The context may run the operation, and the payload fits it. */
  predicate Passes(p: Process, call: Call) {
    && call.context.Some? && call.name in p.operations
    && var ctx, entry := call.context.value, p.operations[call.name];
       && InOperations(ctx, call.name) && ModuleEnabled(ctx, entry) && ctx.role in entry.declaration.roles
       && PayloadFits(p.code(entry.declaration.code).input, call.payload)
  }

  /** Requests to the workspace are served. */
  predicate IsActive(w: World, id: Id) { id in w.rows && w.rows[id].state == Tables.Active }

  /** Why a call is refused before its workspace is looked at: the first of these causes that is present. */
  lemma AdmissionRefusals(p: Process, call: Call)
    ensures var r, operations, name := Admitted(p, call), p.operations, call.name;
      && (r.Ok? <==> Passes(p, call))
      && (r == Err(NotAuthorized(ContextRequired)) <==> call.context.None?)
      && (call.context.Some? ==>
            var ctx := call.context.value;
            && (r == Err(NotAuthorized(OperationUnknown)) <==> name !in operations)
            && (r == Err(NotAuthorized(OperationNotPermitted)) <==> name in operations && !InOperations(ctx, name))
            && (r == Err(NotAuthorized(ModuleDisabled)) <==>
                  name in operations && InOperations(ctx, name) && !ModuleEnabled(ctx, operations[name]))
            && (r == Err(NotAuthorized(RoleNotPermitted)) <==>
                  && name in operations && InOperations(ctx, name) && ModuleEnabled(ctx, operations[name])
                  && ctx.role !in operations[name].declaration.roles)
            && (r == Err(InputInvalid) <==>
                  && name in operations && InOperations(ctx, name) && ModuleEnabled(ctx, operations[name])
                  && ctx.role in operations[name].declaration.roles
                  && !PayloadFits(p.code(operations[name].declaration.code).input, call.payload)))
      && (r.Err? ==> r.error.NotAuthorized? || r.error == InputInvalid)
    ensures Passes(p, call) ==>
      var handling := p.code(p.operations[call.name].declaration.code);
      Admitted(p, call) == Ok(Ready(call.context.value, handling, InputOf(handling.input, call.payload)))
  {
  }

  /**
   * A call that may run is refused as unavailable exactly when its workspace has no row or one in another
   * state than active. Entering raises exactly when the connections kept for the row's database lead to
   * none, or, where that is probed, to another. None of these changes anything.
   */
  lemma DispatchRefusals(p: Process, w: World, call: Call)
    ensures var e := Dispatched(p, w, call);
      && (!Passes(p, call) <==>
            e.reply.Outcome? && e.reply.outcome.Refused?
            && (e.reply.outcome.state.NotAuthorized? || e.reply.outcome.state.InputInvalid?))
      && (!Passes(p, call) ==> e == Effect(w, Outcome(Refused(Admitted(p, call).error))))
      && (e.reply == Outcome(Refused(WorkspaceUnavailable)) <==>
            Passes(p, call) && !IsActive(w, call.context.value.workspace))
      && (e.reply.Exception? ==> Passes(p, call) && IsActive(w, call.context.value.workspace))
      && (Passes(p, call) && IsActive(w, call.context.value.workspace) ==>
            var name := w.rows[call.context.value.workspace].database;
            var reached := if name in w.engines then w.engines[name] else name;
            && (e.reply == Exception(DriverError) <==> reached !in w.databases)
            && (e.reply == Exception(Mismatch) <==> reached in w.databases && p.verifyDatabase && reached != name)
            && (e.reply.Exception? ==> e.reply.why in {DriverError, Mismatch}))
      && (e.reply.Exception? || (e.reply.Outcome? && e.reply.outcome.Refused?) ==> e.after == w)
  {
    AdmissionRefusals(p, call);
  }

  /** The call ran a handler in the context's own workspace, on what its database had committed. */
  predicate Ran(p: Process, w: World, call: Call) {
    && Passes(p, call) && IsActive(w, call.context.value.workspace)
    && var name := w.rows[call.context.value.workspace].database;
       EngineFor(w, name) in w.databases && (p.verifyDatabase ==> EngineFor(w, name) == name)
  }

  /** How the handler of the operation that the call names ends on those contents. */
  function EndingOf(p: Process, w: World, call: Call): Ending
    requires Ran(p, w, call)
  {
    var ctx, handling := call.context.value, p.code(p.operations[call.name].declaration.code);
    var contents := w.databases[EngineFor(w, w.rows[ctx.workspace].database)];
    handling.run(ctx, w.layer, contents, InputOf(handling.input, call.payload))
  }

  /** The handler returned an output of the type that its operation declares. */
  predicate ReturnedAsDeclared(p: Process, w: World, call: Call)
    requires Ran(p, w, call)
  {
    && EndingOf(p, w, call).Returned?
    && (EndingOf(p, w, call).output.Status?
        <==> p.code(p.operations[call.name].declaration.code).output == StatusModel)
  }

  /**
   * All or nothing. A call succeeds exactly when its handler ran and returned the declared type and the
   * commit went through; then the workspace's database is what the handler left and nothing else
   * changed. In every other case, whatever the handler had done, nothing changed at all, and the answer
   * tells a refusal by the handler, a wrong output, and a failure apart.
   */
  lemma AllOrNothing(p: Process, w: World, call: Call)
    ensures var e := Dispatched(p, w, call);
      var succeeded := e.reply.Outcome? && e.reply.outcome.Succeeded?;
      && (succeeded <==> Ran(p, w, call) && ReturnedAsDeclared(p, w, call) && !call.commitFails)
      && (succeeded ==>
            && e.reply.outcome.output == EndingOf(p, w, call).output
            && e.after == w.(databases :=
                 w.databases[
                   EngineFor(w, w.rows[call.context.value.workspace].database) := EndingOf(p, w, call).working]))
      && (!succeeded ==> e.after == w)
      && (e.reply == Outcome(OutputInvalid) <==>
            Ran(p, w, call) && EndingOf(p, w, call).Returned? && !ReturnedAsDeclared(p, w, call))
      && (e.reply == Outcome(HandlerFailed) <==>
            && Ran(p, w, call)
            && (EndingOf(p, w, call).Raised? || (ReturnedAsDeclared(p, w, call) && call.commitFails)))
      && (forall state :: e.reply == Outcome(Refused(ByHandler(state))) <==>
            Ran(p, w, call) && EndingOf(p, w, call).Declined? && EndingOf(p, w, call).state == state)
  {
    AdmissionRefusals(p, call);
    DispatchRefusals(p, w, call);
  }
}

/** Any number of dispatches under way at once: what one workspace can see of the others. */
module DispatchRuns {
  import opened Text
  import opened Uuid
  import opened OperationRegistry
  import opened Dispatch
  import Tables = WorkspaceTables

  /** A request, numbered within its workspace. */
  datatype Slot = Slot(id: Id, request: nat)

  /** A dispatch that has been routed, to a row that was active then, and has not run its handler yet. */
  datatype Open = Open(call: Call, name: DatabaseName)

  datatype System = System(world: World, open: map<Slot, Open>)

  /** Starting and finishing a dispatch, a change of one workspace's registry state, or a new deployment layer. */
  datatype Action =
    | Begin(request: nat, call: Call)
    | Finish(slot: Slot)
    | Crash(slot: Slot)
    | SetState(id: Id, state: Tables.WorkspaceState)
    | Redeploy(layer: Layer)

  /** The system afterwards, and the reply that the action brought, if it brought one. */
  datatype Progress = Progress(after: System, reply: Option<Reply>)

  function Begun(p: Process, s: System, request: nat, call: Call): Progress {
    match Admitted(p, call)
    case Err(state) => Progress(s, Some(Outcome(Refused(state))))
    case Ok(ready) =>
      var slot := Slot(ready.ctx.workspace, request);
      if slot in s.open then Progress(s, None)
      else match Route(s.world, slot.id)
        case None => Progress(s, Some(Outcome(Refused(WorkspaceUnavailable))))
        case Some(name) => Progress(s.(open := s.open[slot := Open(call, name)]), None)
  }

  /** The handler and its commit; the route was taken when the dispatch began. */
  function Completed(p: Process, s: System, slot: Slot): Progress {
    if slot !in s.open || Admitted(p, s.open[slot].call).Err? then Progress(s, None)
    else
      var o := s.open[slot];
      var e := RunReady(p, s.world, Admitted(p, o.call).value, o.name, o.call.commitFails);
      Progress(System(e.after, s.open - {slot}), Some(e.reply))
  }

  function Next(p: Process, s: System, a: Action): Progress {
    match a
    case Begin(request, call) => Begun(p, s, request, call)
    case Finish(slot) => Completed(p, s, slot)
    case Crash(slot) => Progress(s.(open := s.open - {slot}), None)
    case SetState(id, state) =>
      var rows := s.world.rows;
      Progress(if id in rows then s.(world := s.world.(rows := rows[id := rows[id].(state := state)])) else s, None)
    case Redeploy(layer) => Progress(s.(world := s.world.(layer := layer)), None)
  }

  function Run(p: Process, s: System, actions: seq<Action>): System
    decreases |actions|
  {
    if actions == [] then s else Next(p, Run(p, s, actions[..|actions| - 1]), actions[|actions| - 1]).after
  }

  predicate IsFor(call: Call, b: Id) { call.context.Some? && call.context.value.workspace == b }

  /** The actions that a workspace may depend on: its own dispatches, its own row, and the deployment layer. */
  predicate Concerns(a: Action, b: Id) {
    match a
    case Begin(_, call) => IsFor(call, b)
    case Finish(slot) => slot.id == b
    case Crash(slot) => slot.id == b
    case SetState(id, _) => id == b
    case Redeploy(_) => true
  }

  function Project(actions: seq<Action>, b: Id): seq<Action>
    decreases |actions|
  {
    if actions == [] then []
    else
      var earlier, last := Project(actions[..|actions| - 1], b), actions[|actions| - 1];
      if Concerns(last, b) then earlier + [last] else earlier
  }

  /** The replies to the workspace's own dispatches, in order. */
  function Replies(p: Process, s: System, actions: seq<Action>, b: Id): seq<Reply>
    decreases |actions|
  {
    if actions == [] then []
    else
      var earlier, last := actions[..|actions| - 1], actions[|actions| - 1];
      Replies(p, s, earlier, b) + RepliesOf(Next(p, Run(p, s, earlier), last).reply, Concerns(last, b))
  }

  function RepliesOf(reply: Option<Reply>, mine: bool): seq<Reply> {
    if mine && reply.Some? then [reply.value] else []
  }

  /** From just after action `j` to the end of the run the slot has been taken by that dispatch. */
  ghost predicate OpenSince(p: Process, s: System, actions: seq<Action>, j: nat, slot: Slot, open: Open) {
    forall l: nat | j < l <= |actions| ::
      slot in Run(p, s, actions[..l]).open && Run(p, s, actions[..l]).open[slot] == open
  }

  /** The action begins a call that may run, for the active workspace of the slot, routed to its database. */
  predicate Begins(p: Process, s: System, a: Action, slot: Slot, open: Open) {
    && a == Begin(slot.request, open.call) && slot !in s.open && Passes(p, open.call) && IsFor(open.call, slot.id)
    && IsActive(s.world, slot.id) && open.name == s.world.rows[slot.id].database
  }

  lemma OpenedByBegin(p: Process, s: System, a: Action, slot: Slot)
    requires slot !in s.open && slot in Next(p, s, a).after.open
    ensures Begins(p, s, a, slot, Next(p, s, a).after.open[slot])
  {
    if a.Begin? { AdmissionRefusals(p, a.call); }
  }

  /** Action `j` began the dispatch, while its workspace was active, and it has not finished since. */
  ghost predicate BegunAt(p: Process, s: System, actions: seq<Action>, j: nat, slot: Slot, open: Open) {
    && j < |actions| && Begins(p, Run(p, s, actions[..j]), actions[j], slot, open)
    && OpenSince(p, s, actions, j, slot, open)
  }

  /** Every dispatch under way was begun by an action of the run, when its workspace's row was active. */
  lemma {:induction false} OpenOrigin(p: Process, s: System, actions: seq<Action>, slot: Slot) returns (j: nat)
    requires s.open == map[] && slot in Run(p, s, actions).open
    ensures BegunAt(p, s, actions, j, slot, Run(p, s, actions).open[slot])
    decreases |actions|
  {
    var earlier, last := actions[..|actions| - 1], actions[|actions| - 1];
    var before := Run(p, s, earlier);
    if slot in before.open {
      j := OpenOrigin(p, s, earlier, slot);
      assert earlier[..j] == actions[..j];
      forall l: nat | j < l <= |actions|
        ensures var open := Run(p, s, actions[..l]).open; slot in open && open[slot] == before.open[slot]
      {
        assert actions[..l] == if l == |actions| then actions else earlier[..l];
      }
    } else {
      OpenedByBegin(p, before, last, slot);
      j := |actions| - 1;
      assert actions[..j + 1] == actions;
    }
  }

  /**
   * Workspaces have distinct databases, no engine under a name leads elsewhere unless that is probed, and
   * dispatches under way are routed to their own workspace's database.
   */
  predicate Separate(p: Process, s: System) {
    && (forall a, b ::
          a in s.world.rows && b in s.world.rows && s.world.rows[a].database == s.world.rows[b].database ==> a == b)
    && (p.verifyDatabase || forall name <- s.world.engines :: s.world.engines[name] == name)
    && (forall slot <- s.open :: slot.id in s.world.rows && s.open[slot].name == s.world.rows[slot.id].database)
  }

  /** The two systems are the same as far as workspace `b` goes. */
  predicate Agree(s: System, t: System, b: Id) {
    AgreeOnWorld(s.world, t.world, b) && AgreeOnOpen(s.open, t.open, b)
  }

  predicate AgreeOnOpen(open: map<Slot, Open>, other: map<Slot, Open>, b: Id) {
    && (forall slot <- open :: slot.id == b ==> slot in other && other[slot] == open[slot])
    && (forall slot <- other :: slot.id == b ==> slot in open)
  }

  predicate AgreeOnWorld(w: World, v: World, b: Id) {
    && w.layer == v.layer && (b in w.rows <==> b in v.rows)
    && (b in w.rows ==>
          && w.rows[b] == v.rows[b]
          && var name := w.rows[b].database;
             && EngineFor(w, name) == EngineFor(v, name)
             && (EngineFor(w, name) in w.databases <==> EngineFor(w, name) in v.databases)
             && (name in w.databases <==> name in v.databases)
             && (name in w.databases ==> w.databases[name] == v.databases[name]))
  }

  /** A handler's run writes at most the database of the name it was routed to. */
  lemma RunWritesOwn(p: Process, w: World, ready: Ready, name: DatabaseName, commitFails: bool)
    requires p.verifyDatabase || EngineFor(w, name) == name
    ensures var after := RunReady(p, w, ready, name, commitFails).after;
      && after == w.(databases := after.databases) && after.databases.Keys == w.databases.Keys
      && forall other <- w.databases :: other != name ==> after.databases[other] == w.databases[other]
  {
  }

  lemma NextKeepsSeparate(p: Process, s: System, a: Action)
    requires Separate(p, s)
    ensures Separate(p, Next(p, s, a).after)
  {
  }

  lemma OtherFinish(p: Process, s: System, slot: Slot, b: Id)
    requires Separate(p, s) && slot.id != b
    ensures AgreeOnWorld(s.world, Completed(p, s, slot).after.world, b)
  {
  }

  lemma OtherBegin(p: Process, s: System, request: nat, call: Call, b: Id)
    requires !IsFor(call, b)
    ensures Agree(s, Begun(p, s, request, call).after, b)
  {
  }

  /** What another workspace does cannot be seen. */
  lemma OthersAreInvisible(p: Process, s: System, a: Action, b: Id)
    requires Separate(p, s) && !Concerns(a, b)
    ensures Agree(s, Next(p, s, a).after, b)
  {
    match a
    case Begin(request, call) => OtherBegin(p, s, request, call, b);
    case Finish(slot) => OtherFinish(p, s, slot, b);
    case _ =>
  }

  lemma OwnRunAgrees(p: Process, w: World, v: World, ready: Ready, commitFails: bool, b: Id)
    requires b in w.rows && AgreeOnWorld(w, v, b)
    requires p.verifyDatabase || EngineFor(w, w.rows[b].database) == w.rows[b].database
    ensures var e := RunReady(p, w, ready, w.rows[b].database, commitFails);
      var f := RunReady(p, v, ready, v.rows[b].database, commitFails);
      e.reply == f.reply && AgreeOnWorld(e.after, f.after, b)
  {
  }

  lemma OwnFinishAgrees(p: Process, s: System, t: System, slot: Slot)
    requires Separate(p, s) && Separate(p, t) && Agree(s, t, slot.id)
    ensures Agree(Completed(p, s, slot).after, Completed(p, t, slot).after, slot.id)
    ensures Completed(p, s, slot).reply == Completed(p, t, slot).reply
  {
    if slot in s.open && Admitted(p, s.open[slot].call).Ok? {
      var o := s.open[slot];
      assert t.open[slot] == o;
      OwnRunAgrees(p, s.world, t.world, Admitted(p, o.call).value, o.call.commitFails, slot.id);
      assert AgreeOnOpen(s.open - {slot}, t.open - {slot}, slot.id);
    }
  }

  lemma OwnBeginAgrees(p: Process, s: System, t: System, request: nat, call: Call, b: Id)
    requires Agree(s, t, b) && IsFor(call, b)
    ensures Agree(Begun(p, s, request, call).after, Begun(p, t, request, call).after, b)
    ensures Begun(p, s, request, call).reply == Begun(p, t, request, call).reply
  {
  }

  /** What the workspace does itself depends on nothing else. */
  lemma OwnActsAgree(p: Process, s: System, t: System, a: Action, b: Id)
    requires Separate(p, s) && Separate(p, t) && Agree(s, t, b) && Concerns(a, b)
    ensures Agree(Next(p, s, a).after, Next(p, t, a).after, b)
    ensures Next(p, s, a).reply == Next(p, t, a).reply
  {
    match a
    case Begin(request, call) => OwnBeginAgrees(p, s, t, request, call, b);
    case Finish(slot) => OwnFinishAgrees(p, s, t, slot);
    case _ =>
  }

  lemma AgreeTransitive(s: System, t: System, u: System, b: Id)
    requires Agree(s, t, b) && Agree(t, u, b)
    ensures Agree(s, u, b)
  {
  }

  lemma AgreeSymmetric(s: System, t: System, b: Id)
    requires Agree(s, t, b)
    ensures Agree(t, s, b)
  {
  }

  lemma {:induction false} RunKeepsSeparate(p: Process, s: System, actions: seq<Action>)
    requires Separate(p, s)
    ensures Separate(p, Run(p, s, actions))
    decreases |actions|
  {
    if actions != [] {
      RunKeepsSeparate(p, s, actions[..|actions| - 1]);
      NextKeepsSeparate(p, Run(p, s, actions[..|actions| - 1]), actions[|actions| - 1]);
    }
  }

  /**
   * Isolation. Over any interleaving of dispatches, of any registered operations, the replies to one
   * workspace's dispatches and what its database finally holds are those of a run, from any system that
   * agrees on that workspace, in which nothing but that workspace ever acted.
   */
  lemma {:induction false} WorkspacesAreIsolated(p: Process, s: System, t: System, actions: seq<Action>, b: Id)
    requires Separate(p, s) && Separate(p, t) && Agree(s, t, b)
    ensures Agree(Run(p, s, actions), Run(p, t, Project(actions, b)), b)
    ensures Replies(p, s, actions, b) == Replies(p, t, Project(actions, b), b)
    decreases |actions|
  {
    if actions != [] {
      var earlier, last := actions[..|actions| - 1], actions[|actions| - 1];
      WorkspacesAreIsolated(p, s, t, earlier, b);
      RunKeepsSeparate(p, s, earlier);
      RunKeepsSeparate(p, t, Project(earlier, b));
      var there, here := Run(p, s, earlier), Run(p, t, Project(earlier, b));
      if Concerns(last, b) {
        assert Project(actions, b)[..|Project(earlier, b)|] == Project(earlier, b);
        OwnActsAgree(p, there, here, last, b);
      } else {
        OthersAreInvisible(p, there, last, b);
        AgreeSymmetric(there, Next(p, there, last).after, b);
        AgreeTransitive(Next(p, there, last).after, there, here, b);
      }
    }
  }

  /** A dispatch that nothing disturbs between its start and its end is the sequential one. */
  lemma UndisturbedDispatch(p: Process, s: System, request: nat, call: Call)
    requires call.context.Some? ==> Slot(call.context.value.workspace, request) !in s.open
    ensures var begun, e := Next(p, s, Begin(request, call)), Dispatched(p, s.world, call);
      if begun.reply.Some? then begun.reply.value == e.reply && begun.after == s && e.after == s.world
      else
        && call.context.Some?
        && var ended := Next(p, begun.after, Finish(Slot(call.context.value.workspace, request)));
           ended.reply == Some(e.reply) && ended.after == s.(world := e.after)
  {
  }
}
