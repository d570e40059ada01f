/** The core's status and settings operations, and what a dispatch of them does to a workspace. */
module CoreOperations {
  import opened Text
  import opened Uuid
  import opened OperationRegistry
  import opened SettingsSchema
  import opened SettingsResolver
  import opened Dispatch
  import opened DispatchRuns
  import WritePath = SettingsWritePath

  // ---- core.workspace.status ----

  /** The version of the last step applied for each module. */
  function LatestOf(versions: seq<ModuleVersion>): map<string, string>
    decreases |versions|
  {
    if versions == [] then map[]
    else
      var last := versions[|versions| - 1];
      LatestOf(versions[..|versions| - 1])[last.owner := last.schemaVersion]
  }

  method LatestVersions(versions: seq<ModuleVersion>) returns (latest: map<string, string>)
    ensures latest == LatestOf(versions)
  {
    latest := map[];
    for i := 0 to |versions|
      invariant latest == LatestOf(versions[..i])
    {
      assert versions[..i + 1][..i] == versions[..i];
      latest := latest[versions[i].owner := versions[i].schemaVersion];
    }
    assert versions[..|versions|] == versions;
  }

  predicate IsLastFor(versions: seq<ModuleVersion>, owner: string, i: nat)
    requires i < |versions|
  {
    versions[i].owner == owner && forall j :: i < j < |versions| ==> versions[j].owner != owner
  }

  /** A module has a version exactly when a step was applied for it, and then the last one's. */
  lemma {:induction false} LatestIsLast(versions: seq<ModuleVersion>, owner: string)
    ensures owner !in LatestOf(versions) ==> forall i | 0 <= i < |versions| :: versions[i].owner != owner
    ensures owner in LatestOf(versions) ==>
      exists i | 0 <= i < |versions| ::
        IsLastFor(versions, owner, i) && LatestOf(versions)[owner] == versions[i].schemaVersion
    decreases |versions|
  {
    if versions != [] {
      var earlier, last := versions[..|versions| - 1], versions[|versions| - 1];
      LatestIsLast(earlier, owner);
      if last.owner == owner {
        assert IsLastFor(versions, owner, |versions| - 1);
      } else if owner in LatestOf(earlier) {
        var i :|
          && 0 <= i < |earlier| && IsLastFor(earlier, owner, i)
          && LatestOf(earlier)[owner] == earlier[i].schemaVersion;
        assert IsLastFor(versions, owner, i);
      }
    }
  }

  function StatusOf(contents: Contents): seq<ModuleStatus> {
    var latest := LatestOf(contents.versions);
    seq(|contents.modules|, i requires 0 <= i < |contents.modules| =>
      var m := contents.modules[i];
      ModuleStatus(m.owner, m.package, m.state, if m.owner in latest then Some(latest[m.owner]) else None))
  }

  /** `_workspace_status` */
  function RunStatus(ctx: Context, layer: Layer, contents: Contents, input: Input): Ending {
    if contents.composition.None? then Declined(contents, "composition_missing")
    else Returned(contents, Status(contents.composition.value, StatusOf(contents)))
  }

  // ---- core.settings.set and core.settings.set_member ----

  /** `resolve()[key]` with no workspace: the deployment's own value. */
  function DeploymentValue(layer: Layer, key: string): Value {
    if key in layer.registry then Resolved(layer.registry, layer.values, None, None)[key] else Str("")
  }

  function StateName(state: WritePath.RefusalState): string {
    match state
    case SettingUndeclared => "setting_undeclared"
    case SettingScope => "setting_scope"
    case SettingType => "setting_type"
    case SettingFloorViolation => "setting_floor_violation"
  }

  function VerdictOn(layer: Layer, input: Input, scope: Scope): WritePath.Verdict
    requires input.SettingWrite?
  {
    WritePath.ValidateOverride(layer.registry, input.key, input.value, DeploymentValue(layer, input.key), scope)
  }

  /** `_settings_set`: one row of the workspace's settings is inserted or replaced. */
  function RunSettingsSet(ctx: Context, layer: Layer, contents: Contents, input: Input): Ending {
    if !input.SettingWrite? then Raised(contents)
    else match VerdictOn(layer, input, Workspace)
      case MistypedDeployment => Raised(contents)
      case Refused(state) => Declined(contents, StateName(state))
      case Accepted(_, encoded, _) =>
        Returned(
          contents.(settings := contents.settings[input.key := encoded]),
          Written(input.key, input.value, Workspace))
  }

  function MemberRows(contents: Contents, account: Id): Rows {
    if account in contents.members then contents.members[account] else map[]
  }

  /** `_settings_set_member`: the row is the acting account's own. */
  function RunSettingsSetMember(ctx: Context, layer: Layer, contents: Contents, input: Input): Ending {
    if !input.SettingWrite? then Raised(contents)
    else if !ctx.actorKind.AccountActor? || ctx.actor.None? then Declined(contents, "actor_required")
    else match VerdictOn(layer, input, SettingsSchema.Member)
      case MistypedDeployment => Raised(contents)
      case Refused(state) => Declined(contents, StateName(state))
      case Accepted(_, encoded, _) =>
        var account := ctx.actor.value;
        var rows := MemberRows(contents, account)[input.key := encoded];
        Returned(
          contents.(members := contents.members[account := rows]),
          Written(input.key, input.value, SettingsSchema.Member))
  }

  const STATUS := OperationName("core.workspace.status")
  const SETTINGS_SET := OperationName("core.settings.set")
  const SETTINGS_SET_MEMBER := OperationName("core.settings.set_member")

  const OPERATIONS: Operations := map[
    STATUS := Registered(Declaration(Read, {Owner, OperationRegistry.Member, Operator}, {}, false, 0), CORE, CORE),
    SETTINGS_SET := Registered(Declaration(Mutate, {Owner}, {"key", "value"}, false, 1), CORE, CORE),
    SETTINGS_SET_MEMBER := Registered(
      Declaration(Mutate, {Owner, OperationRegistry.Member}, {"key", "value"}, false, 2), CORE, CORE)]

  function Code(n: nat): Handling {
    match n
    case 0 => Handling(NoFieldsModel, StatusModel, RunStatus)
    case 1 => Handling(SettingWriteModel, WrittenModel, RunSettingsSet)
    case _ => Handling(SettingWriteModel, WrittenModel, RunSettingsSetMember)
  }

  function CoreProcess(verifyDatabase: bool): Process { Process(OPERATIONS, Code, verifyDatabase) }

  predicate Succeeds(e: Effect) { e.reply.Outcome? && e.reply.outcome.Succeeded? }

  /** The database that a context's dispatches reach. */
  function Home(w: World, id: Id): Option<Contents> {
    if id in w.rows && EngineFor(w, w.rows[id].database) in w.databases
    then Some(w.databases[EngineFor(w, w.rows[id].database)]) else None
  }

  /** What a reader in the workspace sees. */
  function Seen(w: World, id: Id, account: Option<Id>): Values
    requires Home(w, id).Some?
  {
    var contents := Home(w, id).value;
    Resolved(w.layer.registry, w.layer.values, Some(contents.settings),
             if account.Some? then Some(MemberRows(contents, account.value)) else None)
  }

  /** A handler runs on the workspace's own database. */
  predicate Reaches(verify: bool, w: World, id: Id) {
    && IsActive(w, id) && Home(w, id).Some?
    && (verify ==> EngineFor(w, w.rows[id].database) == w.rows[id].database)
  }

  /** A core operation: the context may run it, and its handler runs. */
  predicate Arrives(verify: bool, w: World, call: Call, roles: set<Role>) {
    && call.context.Some? && InOperations(call.context.value, call.name) && call.context.value.role in roles
    && Reaches(verify, w, call.context.value.workspace)
  }

  /** And the commit goes through. */
  predicate GoesThrough(verify: bool, w: World, call: Call, roles: set<Role>) {
    Arrives(verify, w, call, roles) && !call.commitFails
  }

  // ---- what a status call answers ----

  /** The module's version is that of the last step applied for it. */
  predicate HasLastVersion(versions: seq<ModuleVersion>, m: ModuleStatus) {
    match m.schemaVersion
    case None => forall i | 0 <= i < |versions| :: versions[i].owner != m.owner
    case Some(v) =>
      exists i | 0 <= i < |versions| :: IsLastFor(versions, m.owner, i) && versions[i].schemaVersion == v
  }

  lemma StatusLists(contents: Contents, k: nat)
    requires k < |contents.modules|
    ensures HasLastVersion(contents.versions, StatusOf(contents)[k])
  {
    LatestIsLast(contents.versions, contents.modules[k].owner);
  }

  /** A status lists the recorded composition and modules, each with the version of its last step. */
  lemma StatusReply(verify: bool, w: World, call: Call)
    requires call.name == STATUS
    ensures var e := Dispatched(CoreProcess(verify), w, call);
      && (Succeeds(e) <==>
            && GoesThrough(verify, w, call, {Owner, OperationRegistry.Member, Operator})
            && Home(w, call.context.value.workspace).value.composition.Some?)
      && (Succeeds(e) ==>
            && e.reply.outcome.output.Status? && e.after == w
            && var contents, output := Home(w, call.context.value.workspace).value, e.reply.outcome.output;
               && Some(output.composition) == contents.composition && |output.modules| == |contents.modules|
               && forall k | 0 <= k < |output.modules| ::
                    var m, row := output.modules[k], contents.modules[k];
                    && m.owner == row.owner && m.package == row.package && m.state == row.state
                    && HasLastVersion(contents.versions, m))
  {
    AllOrNothing(CoreProcess(verify), w, call);
    if Succeeds(Dispatched(CoreProcess(verify), w, call)) {
      var contents := Home(w, call.context.value.workspace).value;
      forall k | 0 <= k < |contents.modules| ensures HasLastVersion(contents.versions, StatusOf(contents)[k]) {
        StatusLists(contents, k);
      }
    }
  }

  // ---- what a settings write does ----

  /** The value may be written under the key at that scope: declared, of its type, and within its floor. */
  predicate MayWrite(layer: Layer, key: string, value: Value, scope: Scope) {
    && key in layer.registry
    && var spec := layer.registry[key];
       var deployed := if key in layer.values then layer.values[key] else spec.default;
       && spec.scope == scope && MatchesType(spec.valueType, value) && spec.Chooses(value)
       && (spec.floor.Some? ==> NoLooser(spec.floor.value, value, deployed))
  }

  lemma DeployedValue(layer: Layer, key: string)
    requires key in layer.registry
    ensures DeploymentValue(layer, key)
         == if key in layer.values then layer.values[key] else layer.registry[key].default
    ensures MatchesType(layer.registry[key].valueType, DeploymentValue(layer, key))
  {
    ResolvedValue(layer.registry, layer.values, None, None, key);
  }

  lemma VerdictDecides(layer: Layer, input: Input, scope: Scope)
    requires input.SettingWrite? && scope != Deployment
    ensures var verdict := VerdictOn(layer, input, scope);
      && (verdict.Accepted? <==> MayWrite(layer, input.key, input.value, scope))
      && (verdict.Accepted? ==> verdict.encoded == EncodeText(layer.registry[input.key], input.value))
  {
    var key := input.key;
    if key in layer.registry { DeployedValue(layer, key); }
    WritePath.RefusalCauses(layer.registry, key, input.value, DeploymentValue(layer, key), scope);
  }

  /** The call asks to write that value under that key. */
  predicate Asks(call: Call, key: string, value: Value) {
    PayloadFits(SettingWriteModel, call.payload) && InputOf(SettingWriteModel, call.payload) == SettingWrite(key, value)
  }

  /** `core.settings.set` succeeds exactly for an owner with a value that may be written, and writes that one row. */
  lemma SetSucceeds(verify: bool, w: World, call: Call, key: string, value: Value)
    requires call.name == SETTINGS_SET && Asks(call, key, value)
    ensures var e := Dispatched(CoreProcess(verify), w, call);
      && (Succeeds(e) <==> GoesThrough(verify, w, call, {Owner}) && MayWrite(w.layer, key, value, Workspace))
      && (Succeeds(e) ==>
            var id := call.context.value.workspace;
            && Home(w, id).Some? && e.after.layer == w.layer
            && Home(e.after, id) == Some(Home(w, id).value.(
                 settings := Home(w, id).value.settings[key := EncodeText(w.layer.registry[key], value)])))
  {
    VerdictDecides(w.layer, SettingWrite(key, value), Workspace);
    AllOrNothing(CoreProcess(verify), w, call);
  }

  /** An owner's write that may not be made is refused by name, for the first of these causes. */
  lemma SetRefusals(verify: bool, w: World, call: Call, key: string, value: Value)
    requires call.name == SETTINGS_SET && Asks(call, key, value) && Arrives(verify, w, call, {Owner})
    ensures var r, declared := Dispatched(CoreProcess(verify), w, call).reply, key in w.layer.registry;
      && (r == Outcome(Refused(ByHandler("setting_undeclared"))) <==> !declared)
      && (declared ==>
            var spec := w.layer.registry[key];
            var typed := MatchesType(spec.valueType, value) && spec.Chooses(value);
            && (r == Outcome(Refused(ByHandler("setting_scope"))) <==> spec.scope != Workspace)
            && (r == Outcome(Refused(ByHandler("setting_type"))) <==> spec.scope == Workspace && !typed)
            && (r == Outcome(Refused(ByHandler("setting_floor_violation"))) <==>
                  spec.scope == Workspace && typed && !MayWrite(w.layer, key, value, Workspace)))
  {
    if key in w.layer.registry { DeployedValue(w.layer, key); }
    WritePath.RefusalCauses(w.layer.registry, key, value, DeploymentValue(w.layer, key), Workspace);
    StateNamesDiffer();
    AllOrNothing(CoreProcess(verify), w, call);
    AdmissionRefusals(CoreProcess(verify), call);
  }

  lemma StateNamesDiffer()
    ensures StateName(WritePath.SettingUndeclared) != StateName(WritePath.SettingScope)
    ensures StateName(WritePath.SettingUndeclared) != StateName(WritePath.SettingType)
    ensures StateName(WritePath.SettingUndeclared) != StateName(WritePath.SettingFloorViolation)
    ensures StateName(WritePath.SettingScope) != StateName(WritePath.SettingType)
    ensures StateName(WritePath.SettingScope) != StateName(WritePath.SettingFloorViolation)
    ensures StateName(WritePath.SettingType) != StateName(WritePath.SettingFloorViolation)
  {
    assert "setting_undeclared"[8] == 'u' && "setting_scope"[8] == 's';
    assert "setting_type"[8] == 't' && "setting_floor_violation"[8] == 'f';
  }

  /** `core.settings.set_member` succeeds exactly for an account, and writes one row of that account's. */
  lemma SetMemberSucceeds(verify: bool, w: World, call: Call, key: string, value: Value)
    requires call.name == SETTINGS_SET_MEMBER && Asks(call, key, value)
    ensures var e := Dispatched(CoreProcess(verify), w, call);
      && (Succeeds(e) <==>
            && GoesThrough(verify, w, call, {Owner, OperationRegistry.Member})
            && call.context.value.actorKind.AccountActor? && call.context.value.actor.Some?
            && MayWrite(w.layer, key, value, SettingsSchema.Member))
      && (Succeeds(e) ==>
            var id, account := call.context.value.workspace, call.context.value.actor.value;
            && Home(w, id).Some? && e.after.layer == w.layer
            && var before := Home(w, id).value;
               var rows := MemberRows(before, account)[key := EncodeText(w.layer.registry[key], value)];
               Home(e.after, id) == Some(before.(members := before.members[account := rows])))
  {
    VerdictDecides(w.layer, SettingWrite(key, value), SettingsSchema.Member);
    AllOrNothing(CoreProcess(verify), w, call);
  }

  /** The key reads back as the value written exactly when the value's items survive the text form. */
  predicate ReadsAs(layer: Layer, seen: Value, key: string, value: Value)
    requires key in layer.registry && MatchesType(layer.registry[key].valueType, value)
  {
    var spec := layer.registry[key];
    var deployed := if key in layer.values then layer.values[key] else spec.default;
    WritePath.SameSetting(spec, seen, value) <==> WritePath.Survives(spec, deployed, value)
  }

  lemma WrittenKeyReadsBack(
    layer: Layer, workspace: Rows, member: Option<Rows>, key: string, value: Value, scope: Scope)
    requires MayWrite(layer, key, value, scope) && scope != Deployment
    requires RowOf(layer.registry[key], key, Some(workspace), member) == Some(EncodeText(layer.registry[key], value))
    ensures ReadsAs(layer, Resolved(layer.registry, layer.values, Some(workspace), member)[key], key, value)
  {
    DeployedValue(layer, key);
    WritePath.RefusalCauses(layer.registry, key, value, DeploymentValue(layer, key), scope);
    WritePath.AcceptedReadsBack(layer.registry, key, value, DeploymentValue(layer, key), scope);
    ResolvedValue(layer.registry, layer.values, Some(workspace), member, key);
  }

  /**
   * After a successful `core.settings.set`, every reader in the workspace sees the value that was
   * written (the same set, for a floored list) exactly when its items survive the text form; and
   * every other key reads as it did.
   */
  lemma SetThenRead(
    verify: bool, w: World, call: Call, key: string, value: Value, account: Option<Id>, other: string)
    requires call.name == SETTINGS_SET && Asks(call, key, value) && Succeeds(Dispatched(CoreProcess(verify), w, call))
    ensures var e := Dispatched(CoreProcess(verify), w, call);
      && call.context.Some? && MayWrite(w.layer, key, value, Workspace) && e.after.layer == w.layer
      && var id := call.context.value.workspace;
         && Home(w, id).Some? && Home(e.after, id).Some?
         && ReadsAs(w.layer, Seen(e.after, id, account)[key], key, value)
         && (other in w.layer.registry && other != key ==>
               Seen(e.after, id, account)[other] == Seen(w, id, account)[other])
  {
    SetSucceeds(verify, w, call, key, value);
    var e, id := Dispatched(CoreProcess(verify), w, call), call.context.value.workspace;
    var before, after := Home(w, id).value, Home(e.after, id).value;
    var member := if account.Some? then Some(MemberRows(after, account.value)) else None;
    WrittenKeyReadsBack(w.layer, after.settings, member, key, value, Workspace);
    if other in w.layer.registry && other != key {
      RowsActKeywise(w.layer.registry, w.layer.values, before.settings, after.settings, member, member, other);
    }
  }

  /** After a successful `core.settings.set_member` the account itself sees the value, and nobody else does. */
  lemma SetMemberThenRead(
    verify: bool, w: World, call: Call, key: string, value: Value, reader: Option<Id>, other: string)
    requires call.name == SETTINGS_SET_MEMBER && Asks(call, key, value)
    requires Succeeds(Dispatched(CoreProcess(verify), w, call)) && other in w.layer.registry
    ensures var e := Dispatched(CoreProcess(verify), w, call);
      && call.context.Some? && call.context.value.actor.Some?
      && MayWrite(w.layer, key, value, SettingsSchema.Member) && e.after.layer == w.layer
      && var id := call.context.value.workspace;
         && Home(w, id).Some? && Home(e.after, id).Some?
         && ReadsAs(w.layer, Seen(e.after, id, call.context.value.actor)[key], key, value)
         && (reader != call.context.value.actor || other != key ==>
               Seen(e.after, id, reader)[other] == Seen(w, id, reader)[other])
  {
    SetMemberSucceeds(verify, w, call, key, value);
    var e, id := Dispatched(CoreProcess(verify), w, call), call.context.value.workspace;
    var account := call.context.value.actor;
    var before, after := Home(w, id).value, Home(e.after, id).value;
    WrittenKeyReadsBack(
      w.layer, after.settings, Some(MemberRows(after, account.value)), key, value, SettingsSchema.Member);
    var own := if reader.Some? then Some(MemberRows(before, reader.value)) else None;
    var now := if reader.Some? then Some(MemberRows(after, reader.value)) else None;
    if reader != account || other != key {
      RowsActKeywise(w.layer.registry, w.layer.values, before.settings, after.settings, own, now, other);
    }
  }

  predicate ActsAs(call: Call, id: Id, account: Id) {
    IsFor(call, id) && call.context.value.actorKind.AccountActor? && call.context.value.actor == Some(account)
  }

  predicate ActsAsOwner(call: Call, id: Id) { IsFor(call, id) && call.context.value.role == Owner }

  /** The call's key, and no other, comes to hold the call's value as the write path accepts it. */
  predicate WritesItsKey(layer: Layer, call: Call, scope: Scope, before: Rows, after: Rows) {
    var input := Validated(SettingWriteModel, call.payload);
    && input.Some? && input.value.SettingWrite?
    && var verdict := VerdictOn(layer, input.value, scope);
       verdict.Accepted? && after == before[input.value.key := verdict.encoded]
  }

  /** Settings are written by an owner's `core.settings.set`, member rows by the account's own `set_member`. */
  predicate WritesOwnRows(layer: Layer, call: Call, id: Id, account: Id, before: Contents, after: Contents) {
    var own, rows := MemberRows(before, account), MemberRows(after, account);
    && (after.settings != before.settings ==>
          && call.name == SETTINGS_SET && ActsAsOwner(call, id)
          && WritesItsKey(layer, call, Workspace, before.settings, after.settings))
    && (rows != own ==>
          && call.name == SETTINGS_SET_MEMBER && ActsAs(call, id, account)
          && WritesItsKey(layer, call, SettingsSchema.Member, own, rows))
  }

  lemma SetWritesOwnRows(layer: Layer, contents: Contents, call: Call, input: Input, account: Id)
    requires call.context.Some? && call.context.value.role == Owner && call.name == SETTINGS_SET
    requires Validated(SettingWriteModel, call.payload) == Some(input)
    ensures var ending := RunSettingsSet(call.context.value, layer, contents, input);
      WritesOwnRows(layer, call, call.context.value.workspace, account, contents, ending.working)
  {
  }

  lemma SetMemberWritesOwnRows(layer: Layer, contents: Contents, call: Call, input: Input, account: Id)
    requires call.context.Some? && call.name == SETTINGS_SET_MEMBER
    requires Validated(SettingWriteModel, call.payload) == Some(input)
    ensures var ending := RunSettingsSetMember(call.context.value, layer, contents, input);
      WritesOwnRows(layer, call, call.context.value.workspace, account, contents, ending.working)
  {
  }

  /** What a core handler leaves for a call that it was admitted for. */
  lemma HandlerWritesOwnRows(verify: bool, call: Call, layer: Layer, contents: Contents, account: Id)
    requires Admitted(CoreProcess(verify), call).Ok?
    ensures var ready := Admitted(CoreProcess(verify), call).value;
      var ending := ready.handling.run(ready.ctx, layer, contents, ready.input);
      WritesOwnRows(layer, call, ready.ctx.workspace, account, contents, ending.working)
  {
    var input := Admitted(CoreProcess(verify), call).value.input;
    if call.name == SETTINGS_SET {
      SetWritesOwnRows(layer, contents, call, input, account);
    } else if call.name == SETTINGS_SET_MEMBER {
      SetMemberWritesOwnRows(layer, contents, call, input, account);
    }
  }

  /** The workspace has a database, and its engine leads there. */
  predicate Housed(p: Process, s: System, id: Id) {
    && Separate(p, s) && id in s.world.rows && Home(s.world, id).Some?
    && EngineFor(s.world, s.world.rows[id].database) == s.world.rows[id].database
  }

  /** A run of the handler at home leaves there what its outcome settles. */
  lemma FinishAtHome(p: Process, s: System, slot: Slot)
    requires Housed(p, s, slot.id) && slot in s.open && Admitted(p, s.open[slot].call).Ok?
    ensures var ready, before := Admitted(p, s.open[slot].call).value, Home(s.world, slot.id).value;
      var ending := ready.handling.run(ready.ctx, s.world.layer, before, ready.input);
      && Housed(p, Next(p, s, Finish(slot)).after, slot.id)
      && Home(Next(p, s, Finish(slot)).after.world, slot.id).value in {before, ending.working}
  {
  }

  lemma ElsewhereKeepsHome(p: Process, s: System, a: Action, id: Id)
    requires Housed(p, s, id) && (a.Finish? ==> a.slot.id != id)
    ensures Housed(p, Next(p, s, a).after, id) && Home(Next(p, s, a).after.world, id) == Home(s.world, id)
  {
    NextKeepsSeparate(p, s, a);
    if a.Finish? && a.slot in s.open && Admitted(p, s.open[a.slot].call).Ok? {
      var o := s.open[a.slot];
      RunWritesOwn(p, s.world, Admitted(p, o.call).value, o.name, o.call.commitFails);
    }
  }

  /** An action leaves the workspace as it was, or runs a handler whose call writes only its own rows. */
  predicate ChangesOwnRows(s: System, a: Action, t: System, id: Id, account: Id)
    requires Home(s.world, id).Some? && Home(t.world, id).Some?
  {
    var before, after := Home(s.world, id).value, Home(t.world, id).value;
    if a.Finish? && a.slot.id == id && a.slot in s.open then
      WritesOwnRows(s.world.layer, s.open[a.slot].call, id, account, before, after)
    else after == before
  }

  lemma NextChangesOwnRows(verify: bool, s: System, a: Action, id: Id, account: Id)
    requires Housed(CoreProcess(verify), s, id)
    requires a.Finish? && a.slot in s.open ==> IsFor(s.open[a.slot].call, a.slot.id)
    ensures var after := Next(CoreProcess(verify), s, a).after;
      Housed(CoreProcess(verify), after, id) && ChangesOwnRows(s, a, after, id, account)
  {
    var p := CoreProcess(verify);
    if a.Finish? && a.slot.id == id && a.slot in s.open && Admitted(p, s.open[a.slot].call).Ok? {
      FinishAtHome(p, s, a.slot);
      HandlerWritesOwnRows(verify, s.open[a.slot].call, s.world.layer, Home(s.world, id).value, account);
    } else if a.Finish? && a.slot.id == id {
      assert Next(p, s, a).after == s;
    } else {
      ElsewhereKeepsHome(p, s, a, id);
    }
  }

  /** The next action finishes no dispatch but one that was begun for the workspace of its slot. */
  lemma NextAfterRun(verify: bool, s: System, actions: seq<Action>, a: Action, id: Id, account: Id)
    requires Housed(CoreProcess(verify), Run(CoreProcess(verify), s, actions), id) && s.open == map[]
    ensures var p := CoreProcess(verify);
      var before := Run(p, s, actions);
      && Housed(p, Next(p, before, a).after, id)
      && ChangesOwnRows(before, a, Next(p, before, a).after, id, account)
      && (a.Finish? && a.slot in before.open ==>
            exists j: nat :: BegunAt(p, s, actions, j, a.slot, before.open[a.slot]))
  {
    var before := Run(CoreProcess(verify), s, actions);
    if a.Finish? && a.slot in before.open {
      var j := OpenOrigin(CoreProcess(verify), s, actions, a.slot);
    }
    NextChangesOwnRows(verify, before, a, id, account);
  }

  lemma {:induction false} RunStaysHoused(verify: bool, s: System, actions: seq<Action>, id: Id)
    requires Housed(CoreProcess(verify), s, id) && s.open == map[]
    ensures Housed(CoreProcess(verify), Run(CoreProcess(verify), s, actions), id)
    decreases |actions|
  {
    if actions != [] {
      RunStaysHoused(verify, s, actions[..|actions| - 1], id);
      NextAfterRun(verify, s, actions[..|actions| - 1], actions[|actions| - 1], id, id);
    }
  }

  /**
   * Over any interleaving, each action of the run changes what a workspace holds only by finishing a
   * dispatch that an earlier action began there; the settings change only if that dispatch is an owner's
   * `core.settings.set`, an account's own rows only if it is that account's `core.settings.set_member`,
   * and either way only under the key, and to the value, that its payload names.
   */
  lemma RowsChangeByTheirOwners(verify: bool, s: System, actions: seq<Action>, i: nat, id: Id, account: Id)
    requires Housed(CoreProcess(verify), s, id) && s.open == map[] && i < |actions|
    ensures var p := CoreProcess(verify);
      var before, after, a := Run(p, s, actions[..i]), Run(p, s, actions[..i + 1]), actions[i];
      && Housed(p, before, id) && Housed(p, after, id) && ChangesOwnRows(before, a, after, id, account)
      && (a.Finish? && a.slot in before.open ==>
            exists j: nat :: BegunAt(p, s, actions[..i], j, a.slot, before.open[a.slot]))
  {
    assert actions[..i + 1][..i] == actions[..i];
    RunStaysHoused(verify, s, actions[..i], id);
    NextAfterRun(verify, s, actions[..i], actions[i], id, account);
  }
}
