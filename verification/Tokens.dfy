/** Which operations a token may ever carry. */
module TokenSets {
  import opened Text
  import opened OperationRegistry

  /** `NON_TOKEN_ISSUABLE` */
  const NON_ISSUABLE := {
    OperationName("core.approval.approve"), OperationName("core.approval.refuse"),
    OperationName("core.standing_grant.create"), OperationName("core.standing_grant.revoke"),
    TOKEN_ISSUE, TOKEN_REVOKE
  }
  const TOKEN_ISSUE := OperationName("core.token.issue")
  const TOKEN_REVOKE := OperationName("core.token.revoke")

  /** The operations named by the registered tools. */
  const TOOLS := {OperationName("core.workspace.status"), OperationName("harness.note.get")}

  function RolePermitted(operations: Operations, role: Role): set<OperationName> {
    set name | name in operations && role in operations[name].declaration.roles
  }

  function ReadOnly(operations: Operations): set<OperationName> {
    set name | name in operations && operations[name].declaration.safety == Read
  }

  function AgentDefault(operations: Operations): set<OperationName> { TOOLS * operations.Keys }

  function CliFull(operations: Operations): set<OperationName> { operations.Keys - NON_ISSUABLE }

  /** `_role_permitted_set` */
  method CollectPermitted(operations: Operations, role: Role) returns (permitted: set<OperationName>)
    ensures permitted == RolePermitted(operations, role)
  {
    permitted := {};
    var todo := operations.Keys;
    while todo != {}
      invariant todo <= operations.Keys
      invariant permitted ==
        set name | name in operations && name !in todo && role in operations[name].declaration.roles
      decreases |todo|
    {
      var name :| name in todo;
      if role in operations[name].declaration.roles {
        permitted := permitted + {name};
      }
      todo := todo - {name};
    }
  }

  /** `read_only` */
  method CollectReadOnly(operations: Operations) returns (names: set<OperationName>)
    ensures names == ReadOnly(operations)
  {
    names := {};
    var todo := operations.Keys;
    while todo != {}
      invariant todo <= operations.Keys
      invariant names == set name | name in operations && name !in todo && operations[name].declaration.safety == Read
      decreases |todo|
    {
      var name :| name in todo;
      if operations[name].declaration.safety == Read {
        names := names + {name};
      }
      todo := todo - {name};
    }
  }

  function PackageSet(name: string, operations: Operations): Option<set<OperationName>> {
    if name == "read_only" then Some(ReadOnly(operations))
    else if name == "agent_default" then Some(AgentDefault(operations))
    else if name == "cli_full" then Some(CliFull(operations))
    else None
  }

  /**
   * Two of the package sets never hold a non-issuable name. The third holds one exactly when such an
   * operation is registered as a read, so stripping the six at issue is not redundant.
   */
  lemma PackageSetsAndTheSix(operations: Operations)
    ensures AgentDefault(operations) !! NON_ISSUABLE && CliFull(operations) !! NON_ISSUABLE
    ensures ReadOnly(operations) !! NON_ISSUABLE <==>
      forall name <- NON_ISSUABLE :: name in operations ==> operations[name].declaration.safety != Read
  {
  }

  /** Such a table: token issue registered as a read. */
  lemma ReadOnlyCanHoldOne()
    ensures var operations := map[TOKEN_ISSUE := Registered(Declaration(Read, {Owner}, {}, false, 0), CORE, CORE)];
      TOKEN_ISSUE in ReadOnly(operations) * NON_ISSUABLE
  {
  }
}

/** Access tokens: issue, revocation and presentation. */
module Tokens {
  import opened Text
  import opened Uuid
  import opened OperationRegistry
  import opened TokenSets
  import opened SettingsSchema
  import opened SettingsResolver
  import opened Sessions
  import opened Dispatch
  import TokenFormat
  import Tables = WorkspaceTables

  datatype Kind = Cli | Mcp | Runtime

  datatype Surface = Api | McpSurface | OtherSurface

  predicate Accepts(surface: Surface, kind: Kind) {
    match surface
    case Api => kind in {Cli, Mcp}
    case McpSurface => kind in {Mcp, Runtime}
    case OtherSurface => false
  }

  /** The 32 random bytes; their SHA-256 is taken to be injective. */
  datatype Raw = Raw(bytes: seq<TokenFormat.Byte>)

  datatype Token = Token(
    account: Id, workspace: Id, kind: Kind, snapshot: set<OperationName>, expires: int, revoked: Option<int>,
    lastUsed: Option<int>)

  /** The token table, and its unique index on the hash. */
  datatype TokenStore = TokenStore(tokens: map<Id, Token>, hashes: map<Raw, Id>)

  /** What the token code reads: the operation table, memberships and workspaces, and settings of both layers. */
  datatype Env = Env(operations: Operations, directory: Directory, layer: Layer, overrides: map<Id, Rows>)

  function DaysKey(kind: Kind): string {
    if kind == Mcp then "identity.token_max_days.mcp" else "identity.token_max_days.cli"
  }

  predicate DaysDeclared(layer: Layer, kind: Kind) {
    var key := DaysKey(kind);
    key in layer.registry && layer.registry[key].valueType == IntType && layer.registry[key].floor == Some(Min)
  }

  /** The core declares both keys under a `min` floor. */
  predicate HasTokenKeys(layer: Layer) { DaysDeclared(layer, Cli) && DaysDeclared(layer, Mcp) }

  /** The lifetime in days for a workspace, resolved from whatever override rows it holds. */
  function MaxDays(env: Env, workspace: Id, kind: Kind): int
    requires DaysDeclared(env.layer, kind)
  {
    var rows := if workspace in env.overrides then env.overrides[workspace] else map[];
    Resolved(env.layer.registry, env.layer.values, Some(rows), None)[DaysKey(kind)].number
  }

  /** The deployment layer's limit for the kind, or the declared default where the layer has none. */
  function DeploymentDays(layer: Layer, kind: Kind): int
    requires DaysDeclared(layer, kind)
  {
    var key := if kind == Mcp then "identity.token_max_days.mcp" else "identity.token_max_days.cli";
    if key in layer.values then layer.values[key].number else layer.registry[key].default.number
  }

  /** The days that the workspace's own row for the kind asks for, if it has one that is a number. */
  function WorkspaceDays(env: Env, workspace: Id, kind: Kind): Option<int>
    requires DaysDeclared(env.layer, kind)
  {
    var key := DaysKey(kind);
    if workspace !in env.overrides || key !in env.overrides[workspace] then None
    else if env.layer.registry[key].scope != Workspace then None
    else ParseInt(Strip(env.overrides[workspace][key]))
  }

  /** The lifetime is the deployment's, or the workspace's where that is shorter; never longer. */
  lemma WorkspaceCannotExtend(env: Env, workspace: Id, kind: Kind)
    requires DaysDeclared(env.layer, kind)
    ensures var days, own := DeploymentDays(env.layer, kind), WorkspaceDays(env, workspace, kind);
      MaxDays(env, workspace, kind) == if own.Some? && own.value < days then own.value else days
  {
    var rows := if workspace in env.overrides then env.overrides[workspace] else map[];
    ResolvedValue(env.layer.registry, env.layer.values, Some(rows), None, DaysKey(kind));
  }

  datatype IssueInput = IssueInput(
    kind: Kind, setName: Option<string>, operations: Option<seq<OperationName>>, account: Option<Id>)

  datatype TokenRefusal =
    | SetSelectionInvalid | SetNotIssuable | SetEmpty | AccountRequired | TokenExists | NotFound
    | TokenMalformed | TokenWrongKind | TokenExpired | TokenRevoked | TokenScopeInvalid
    | NoMembership | NoWorkspace

  /** `_expand` */
  function Expanded(operations: Operations, input: IssueInput): Result<set<OperationName>, TokenRefusal> {
    if input.setName.None? == input.operations.None? then Err(SetSelectionInvalid)
    else if input.operations.Some? then
      var requested := set name | name in input.operations.value;
      if requested !! NON_ISSUABLE then Ok(requested) else Err(SetNotIssuable)
    else match PackageSet(input.setName.value, operations)
      case None => Err(SetNotIssuable)
      case Some(names) => Ok(names)
  }

  /** Whom the token is for, that account's role, and the names the issuer may grant. */
  datatype Grantable = Grantable(account: Id, role: Role, names: set<OperationName>)

  /** `_issuer_permitted_set` */
  function IssuerPermitted(env: Env, ctx: Context, input: IssueInput): Result<Grantable, TokenRefusal> {
    if ctx.actorKind.AccountActor? && ctx.actor.Some? then
      Ok(Grantable(ctx.actor.value, ctx.role, RolePermitted(env.operations, ctx.role)))
    else if !ctx.actorKind.OperatorActor? || input.account.None? then Err(AccountRequired)
    else
      var member := Membership(input.account.value, ctx.workspace);
      if member !in env.directory.roles then Err(NoMembership)
      else
        var role := env.directory.roles[member];
        var union := ReadOnly(env.operations) + AgentDefault(env.operations) + CliFull(env.operations);
        Ok(Grantable(input.account.value, role, union * RolePermitted(env.operations, role)))
  }

  /** The names that survive, and for whom. */
  function Survivors(env: Env, ctx: Context, input: IssueInput): Result<Grantable, TokenRefusal> {
    match Expanded(env.operations, input)
    case Err(e) => Err(e)
    case Ok(requested) =>
      match IssuerPermitted(env, ctx, input)
      case Err(e) => Err(e)
      case Ok(grantable) =>
        var names := requested * grantable.names - NON_ISSUABLE;
        if names == {} then Err(SetEmpty) else Ok(grantable.(names := names))
  }

  /** `issue_handler`'s transaction; `id` and `raw` are the fresh draws. */
  function AfterIssue(env: Env, store: TokenStore, ctx: Context, input: IssueInput, now: int, id: Id, raw: Raw)
    : Result<TokenStore, TokenRefusal>
    requires DaysDeclared(env.layer, input.kind)
  {
    match Survivors(env, ctx, input)
    case Err(e) => Err(e)
    case Ok(granted) =>
      if id in store.tokens || raw in store.hashes then Err(TokenExists)
      else
        var expires := now + DAY * MaxDays(env, ctx.workspace, input.kind);
        Ok(TokenStore(
          store.tokens[id := Token(granted.account, ctx.workspace, input.kind, granted.names, expires, None, None)],
          store.hashes[raw := id]))
  }

  /** `revoke_handler` */
  function AfterTokenRevoke(store: TokenStore, ctx: Context, id: Id, now: int): Result<TokenStore, TokenRefusal> {
    if id !in store.tokens || store.tokens[id].workspace != ctx.workspace
       || (ctx.actorKind.AccountActor? && ctx.actor != Some(store.tokens[id].account))
    then Err(NotFound)
    else Ok(store.(tokens := store.tokens[id := store.tokens[id].(revoked := Some(now))]))
  }

  /** The row behind a presented value; the kind written in the value itself is not looked at. */
  function Lookup(store: TokenStore, value: string): Option<Id> {
    match TokenFormat.Parse(value)
    case None => None
    case Some(parsed) =>
      if Raw(parsed.raw) in store.hashes && store.hashes[Raw(parsed.raw)] in store.tokens
      then Some(store.hashes[Raw(parsed.raw)]) else None
  }

  /** `resolve_token`: the refusal chain. */
  function Accepted(env: Env, store: TokenStore, value: string, surface: Surface, now: int): Result<Id, TokenRefusal> {
    match Lookup(store, value)
    case None => Err(TokenMalformed)
    case Some(id) =>
      var token := store.tokens[id];
      if !Accepts(surface, token.kind) then Err(TokenWrongKind)
      else if token.expires <= now then Err(TokenExpired)
      else if token.revoked.Some? then Err(TokenRevoked)
      else if !(token.snapshot !! NON_ISSUABLE) then Err(TokenScopeInvalid)
      else if Membership(token.account, token.workspace) !in env.directory.roles then Err(NoMembership)
      else Ok(id)
  }

  /** A success is noted in the row, in the same transaction. */
  function AfterAccepted(env: Env, store: TokenStore, value: string, surface: Surface, now: int): TokenStore {
    match Accepted(env, store, value, surface, now)
    case Err(_) => store
    case Ok(id) => store.(tokens := store.tokens[id := store.tokens[id].(lastUsed := Some(now))])
  }

  /** `context_from_token` */
  function ContextFromToken(
    env: Env, store: TokenStore, value: string, surface: Surface, now: int): Result<Context, TokenRefusal>
  {
    match Accepted(env, store, value, surface, now)
    case Err(e) => Err(e)
    case Ok(id) =>
      var token, d := store.tokens[id], env.directory;
      if token.workspace !in d.states || d.states[token.workspace] != Tables.Active then Err(NoWorkspace)
      else Ok(Context(token.workspace, TokenActor, Some(token.account),
                      d.roles[Membership(token.account, token.workspace)],
                      Only(token.snapshot), if token.workspace in d.modules then d.modules[token.workspace] else {}))
  }

  /** The token tables of the control plane. */
  class TokenTables {
    var tokens: map<Id, Token>
    var hashes: map<Raw, Id>

    constructor ()
      ensures State() == TokenStore(map[], map[])
    {
      tokens, hashes := map[], map[];
    }

    function State(): TokenStore
      reads this
    {
      TokenStore(tokens, hashes)
    }

    /** The session or operator issuer's bound, with the loop over the operation table. */
    method IssuerBound(env: Env, ctx: Context, input: IssueInput) returns (r: Result<Grantable, TokenRefusal>)
      ensures r == IssuerPermitted(env, ctx, input)
    {
      if ctx.actorKind.AccountActor? && ctx.actor.Some? {
        var names := CollectPermitted(env.operations, ctx.role);
        return Ok(Grantable(ctx.actor.value, ctx.role, names));
      }
      if !ctx.actorKind.OperatorActor? || input.account.None? {
        return Err(AccountRequired);
      }
      var member := Membership(input.account.value, ctx.workspace);
      if member !in env.directory.roles {
        return Err(NoMembership);
      }
      var role := env.directory.roles[member];
      var readOnly := CollectReadOnly(env.operations);
      var permitted := CollectPermitted(env.operations, role);
      var union := readOnly + AgentDefault(env.operations) + CliFull(env.operations);
      return Ok(Grantable(input.account.value, role, union * permitted));
    }

    /** On success, the row written. */
    method Issue(env: Env, ctx: Context, input: IssueInput, now: int, id: Id, raw: Raw)
      returns (r: Result<Token, TokenRefusal>)
      requires DaysDeclared(env.layer, input.kind)
      modifies this
      ensures var after := AfterIssue(env, old(State()), ctx, input, now, id, raw);
        && State() == (if after.Ok? then after.value else old(State()))
        && r == (if after.Ok? then Ok(after.value.tokens[id]) else Err(after.error))
    {
      var requested := Expanded(env.operations, input);
      if requested.Err? {
        return Err(requested.error);
      }
      var bound := IssuerBound(env, ctx, input);
      if bound.Err? {
        return Err(bound.error);
      }
      var survivors := requested.value * bound.value.names - NON_ISSUABLE;
      if survivors == {} {
        return Err(SetEmpty);
      }
      var expires := now + DAY * MaxDays(env, ctx.workspace, input.kind);
      if id in tokens || raw in hashes {
        return Err(TokenExists);
      }
      tokens := tokens[id := Token(bound.value.account, ctx.workspace, input.kind, survivors, expires, None, None)];
      hashes := hashes[raw := id];
      return Ok(tokens[id]);
    }

    method RevokeToken(ctx: Context, id: Id, now: int) returns (r: Option<TokenRefusal>)
      modifies this
      ensures var after := AfterTokenRevoke(old(State()), ctx, id, now);
        && State() == (if after.Ok? then after.value else old(State()))
        && r == (if after.Ok? then None else Some(after.error))
    {
      if id !in tokens || tokens[id].workspace != ctx.workspace
         || (ctx.actorKind.AccountActor? && ctx.actor != Some(tokens[id].account)) {
        return Some(NotFound);
      }
      tokens := tokens[id := tokens[id].(revoked := Some(now))];
      return None;
    }

    method ResolveToken(env: Env, value: string, surface: Surface, now: int) returns (r: Result<Id, TokenRefusal>)
      modifies this
      ensures r == Accepted(env, old(State()), value, surface, now)
      ensures State() == AfterAccepted(env, old(State()), value, surface, now)
    {
      var parsed := TokenFormat.Parse(value);
      if parsed.None? || Raw(parsed.value.raw) !in hashes || hashes[Raw(parsed.value.raw)] !in tokens {
        return Err(TokenMalformed);
      }
      var id := hashes[Raw(parsed.value.raw)];
      var token := tokens[id];
      if !Accepts(surface, token.kind) {
        return Err(TokenWrongKind);
      }
      if token.expires <= now {
        return Err(TokenExpired);
      }
      if token.revoked.Some? {
        return Err(TokenRevoked);
      }
      if !(token.snapshot !! NON_ISSUABLE) {
        return Err(TokenScopeInvalid);
      }
      if Membership(token.account, token.workspace) !in env.directory.roles {
        return Err(NoMembership);
      }
      tokens := tokens[id := token.(lastUsed := Some(now))];
      return Ok(id);
    }
  }

  /** What a granted snapshot is: not empty, none of the six, and no more than the target's role allows. */
  lemma SurvivorsAreBounded(env: Env, ctx: Context, input: IssueInput)
    requires Survivors(env, ctx, input).Ok?
    ensures var granted := Survivors(env, ctx, input).value;
      && granted.names != {} && granted.names !! NON_ISSUABLE
      && granted.names <= RolePermitted(env.operations, granted.role)
      && granted.names <= Expanded(env.operations, input).value
      && (ctx.actorKind.AccountActor? ==> ctx.actor == Some(granted.account) && granted.role == ctx.role)
      && (!ctx.actorKind.AccountActor? ==>
            && ctx.actorKind.OperatorActor?
            && Membership(granted.account, ctx.workspace) in env.directory.roles
            && granted.role == env.directory.roles[Membership(granted.account, ctx.workspace)])
  {
  }

  /** One selection, of names outside the six or of a package set. */
  predicate Selects(input: IssueInput) {
    && input.setName.Some? != input.operations.Some?
    && (input.operations.Some? ==> forall name <- input.operations.value :: name !in NON_ISSUABLE)
    && (input.setName.Some? ==> input.setName.value in {"read_only", "agent_default", "cli_full"})
  }

  /** What the selection asks for: the names listed, the registered reads, the tools' operations, or everything. */
  predicate AsksFor(operations: Operations, input: IssueInput, name: OperationName) {
    if input.operations.Some? then name in input.operations.value
    else
      && name in operations
      && (input.setName == Some("read_only") ==> operations[name].declaration.safety == Read)
      && (input.setName == Some("agent_default") ==> name in TOOLS)
  }

  /** The name is asked for, registered, open to the role, and none of the six. */
  predicate MayCarry(operations: Operations, role: Role, input: IssueInput, name: OperationName) {
    && AsksFor(operations, input, name) && name in operations && role in operations[name].declaration.roles
    && name !in NON_ISSUABLE
  }

  lemma ExpandedNames(operations: Operations, input: IssueInput)
    ensures Expanded(operations, input).Ok? <==> Selects(input)
    ensures Selects(input) ==> forall name ::
      name in Expanded(operations, input).value && name !in NON_ISSUABLE <==>
        AsksFor(operations, input, name) && name !in NON_ISSUABLE
  {
    if input.operations.Some? {
      var requested := set name | name in input.operations.value;
      assert requested !! NON_ISSUABLE <==> !exists name <- input.operations.value :: name in NON_ISSUABLE;
    }
  }

  /** What survives, exactly: the names that the target's role may carry. */
  lemma SurvivorsAreExact(env: Env, ctx: Context, input: IssueInput)
    requires Selects(input) && RoleOfTarget(env, ctx, input).Some?
    ensures var r, role := Survivors(env, ctx, input), RoleOfTarget(env, ctx, input).value;
      && (r.Ok? <==> exists name :: MayCarry(env.operations, role, input, name))
      && (r.Err? ==> r.error == SetEmpty)
      && (r.Ok? ==>
            && r.value.role == role
            && r.value.account == (if IssuesForItself(ctx) then ctx.actor.value else input.account.value)
            && forall name :: name in r.value.names <==> MayCarry(env.operations, role, input, name))
  {
    ExpandedNames(env.operations, input);
    SurvivingNames(env, ctx, input);
    var role := RoleOfTarget(env, ctx, input).value;
    var names := Expanded(env.operations, input).value * IssuerPermitted(env, ctx, input).value.names - NON_ISSUABLE;
    assert forall name :: name in names <==> MayCarry(env.operations, role, input, name);
  }

  /** Why an issue is refused, each refusal exactly when its cause is the first present. */
  lemma IssueRefusals(env: Env, ctx: Context, input: IssueInput)
    ensures var r := Survivors(env, ctx, input);
      var oneSelection := input.setName.Some? != input.operations.Some?;
      && (r == Err(SetSelectionInvalid) <==> !oneSelection)
      && (r == Err(SetNotIssuable) <==> oneSelection && !Selects(input))
      && (r == Err(AccountRequired) <==> Selects(input) && !IssuesForItself(ctx) && !NamesAccount(ctx, input))
      && (r == Err(NoMembership) <==>
            && Selects(input) && !IssuesForItself(ctx) && NamesAccount(ctx, input)
            && Membership(input.account.value, ctx.workspace) !in env.directory.roles)
      && (r == Err(SetEmpty) <==>
            && Selects(input) && RoleOfTarget(env, ctx, input).Some?
            && forall name :: !MayCarry(env.operations, RoleOfTarget(env, ctx, input).value, input, name))
      && (r.Ok? || r.error in {SetSelectionInvalid, SetNotIssuable, AccountRequired, NoMembership, SetEmpty})
  {
    ExpandedNames(env.operations, input);
    if Selects(input) && RoleOfTarget(env, ctx, input).Some? { SurvivorsAreExact(env, ctx, input); }
  }

  predicate IssuesForItself(ctx: Context) { ctx.actorKind.AccountActor? && ctx.actor.Some? }

  predicate NamesAccount(ctx: Context, input: IssueInput) { ctx.actorKind.OperatorActor? && input.account.Some? }

  /** The role that bounds the issue, when there is an account to issue for. */
  function RoleOfTarget(env: Env, ctx: Context, input: IssueInput): Option<Role> {
    if IssuesForItself(ctx) then Some(ctx.role)
    else if !NamesAccount(ctx, input) then None
    else
      var member := Membership(input.account.value, ctx.workspace);
      if member in env.directory.roles then Some(env.directory.roles[member]) else None
  }

  /** The names that survive are the requested ones, outside the six, that the target's role allows. */
  lemma SurvivingNames(env: Env, ctx: Context, input: IssueInput)
    requires RoleOfTarget(env, ctx, input).Some? && Expanded(env.operations, input).Ok?
    ensures IssuerPermitted(env, ctx, input).Ok?
    ensures Expanded(env.operations, input).value * IssuerPermitted(env, ctx, input).value.names - NON_ISSUABLE
         == Expanded(env.operations, input).value * RolePermitted(env.operations, RoleOfTarget(env, ctx, input).value)
            - NON_ISSUABLE
  {
  }

  /** For an operator the union of the package sets takes nothing away that the strip would leave. */
  lemma OperatorUnionIsRoleBound(env: Env, ctx: Context, input: IssueInput)
    requires ctx.actorKind.OperatorActor? && Survivors(env, ctx, input).Ok?
    ensures var granted := Survivors(env, ctx, input).value;
      var allowed := RolePermitted(env.operations, granted.role);
      granted.names == Expanded(env.operations, input).value * allowed - NON_ISSUABLE
  {
  }

  /** Which refusal a presented value gets: the first of these causes that is present. */
  lemma TokenRefusals(env: Env, store: TokenStore, value: string, surface: Surface, now: int)
    ensures var r, id := Accepted(env, store, value, surface, now), Lookup(store, value);
      && (r == Err(TokenMalformed) <==> id.None?)
      && (id.Some? ==>
            var token := store.tokens[id.value];
            var fits :=
              (surface.Api? && token.kind in {Cli, Mcp}) || (surface.McpSurface? && token.kind in {Mcp, Runtime});
            var live := fits && now < token.expires && token.revoked.None?;
            && (r == Err(TokenWrongKind) <==> !fits)
            && (r == Err(TokenExpired) <==> fits && token.expires <= now)
            && (r == Err(TokenRevoked) <==> fits && now < token.expires && token.revoked.Some?)
            && (r == Err(TokenScopeInvalid) <==> live && !(token.snapshot !! NON_ISSUABLE))
            && (r == Err(NoMembership) <==>
                  && live && token.snapshot !! NON_ISSUABLE
                  && Membership(token.account, token.workspace) !in env.directory.roles)
            && (r == Ok(id.value) <==>
                  && live && token.snapshot !! NON_ISSUABLE
                  && Membership(token.account, token.workspace) in env.directory.roles))
  {
  }

  function KindText(kind: Kind): string {
    match kind
    case Cli => "cli"
    case Mcp => "mcp"
    case Runtime => "runtime"
  }

  /** The value rendered for a kind leads back to the token whose bytes it carries. */
  lemma RenderedIsFound(store: TokenStore, kind: Kind, raw: Raw)
    requires |raw.bytes| == TokenFormat.RAW_BYTES && raw in store.hashes && store.hashes[raw] in store.tokens
    ensures Lookup(store, TokenFormat.Mint(KindText(kind), raw.bytes)) == Some(store.hashes[raw])
  {
    TokenFormat.ParseOfMint(KindText(kind), raw.bytes);
  }

  /**
   * An issue succeeds exactly for a good selection, a target with a role and something to carry, under a
   * free id and hash; the row then carries exactly the names asked for that the target's role may carry.
   */
  lemma IssuedRow(env: Env, store: TokenStore, ctx: Context, input: IssueInput, now: int, id: Id, raw: Raw)
    requires DaysDeclared(env.layer, input.kind)
    ensures var r, role := AfterIssue(env, store, ctx, input, now, id, raw), RoleOfTarget(env, ctx, input);
      && (r.Ok? <==>
            && Selects(input) && role.Some? && (exists name :: MayCarry(env.operations, role.value, input, name))
            && id !in store.tokens && raw !in store.hashes)
      && (r.Ok? ==>
            && id in r.value.tokens && r.value.hashes == store.hashes[raw := id]
            && var token := r.value.tokens[id];
               && r.value.tokens == store.tokens[id := token]
               && token.account == (if IssuesForItself(ctx) then ctx.actor.value else input.account.value)
               && token.workspace == ctx.workspace && token.kind == input.kind
               && (forall name :: name in token.snapshot <==> MayCarry(env.operations, role.value, input, name))
               && token.expires == now + DAY * MaxDays(env, ctx.workspace, input.kind)
               && token.revoked.None? && token.lastUsed.None?)
  {
    IssueRefusals(env, ctx, input);
    if Selects(input) && RoleOfTarget(env, ctx, input).Some? { SurvivorsAreExact(env, ctx, input); }
  }

  /**
   * The value that issuing renders is found as the token that was issued, and is accepted, under any
   * later memberships, exactly on the surfaces of its kind, until its deadline, for a member; the
   * context is then confined to the snapshot, with the member's role of that later moment.
   */
  lemma IssuedValueIsAccepted(
    env: Env, store: TokenStore, ctx: Context, input: IssueInput, now: int, id: Id, raw: Raw,
    later: Env, surface: Surface, moment: int)
    requires DaysDeclared(env.layer, input.kind) && |raw.bytes| == TokenFormat.RAW_BYTES
    requires AfterIssue(env, store, ctx, input, now, id, raw).Ok?
    ensures var after := AfterIssue(env, store, ctx, input, now, id, raw).value;
      var value := TokenFormat.Mint(KindText(input.kind), raw.bytes);
      && id in after.tokens && Lookup(after, value) == Some(id)
      && var token := after.tokens[id];
         var member := Membership(token.account, ctx.workspace);
         && (Accepted(later, after, value, surface, moment) == Ok(id) <==>
               && (match surface
                   case Api => input.kind in {Cli, Mcp}
                   case McpSurface => input.kind in {Mcp, Runtime}
                   case OtherSurface => false)
               && moment < now + DAY * MaxDays(env, ctx.workspace, input.kind) && member in later.directory.roles)
         && (Accepted(later, after, value, surface, moment) == Ok(id) ==>
               member in later.directory.roles
               && ContextFromToken(later, after, value, surface, moment) == ContextUnder(later.directory, token))
  {
    var after := AfterIssue(env, store, ctx, input, now, id, raw).value;
    IssuedRow(env, store, ctx, input, now, id, raw);
    assert after.tokens[id].snapshot !! NON_ISSUABLE;
    RenderedIsFound(after, input.kind, raw);
    var value := TokenFormat.Mint(KindText(input.kind), raw.bytes);
    TokenRefusals(later, after, value, surface, moment);
    if Accepted(later, after, value, surface, moment) == Ok(id) {
      AcceptedContext(later, after, value, surface, moment, id);
    }
  }

  /** A context confined to the token's snapshot, with the account's role and the workspace's modules of now. */
  function ContextUnder(d: Directory, token: Token): Result<Context, TokenRefusal>
    requires Membership(token.account, token.workspace) in d.roles
  {
    if (token.workspace, Tables.Active) !in d.states.Items then Err(NoWorkspace)
    else
      var role := d.roles[Membership(token.account, token.workspace)];
      Ok(Context(token.workspace, TokenActor, Some(token.account), role, Only(token.snapshot),
                 EnabledModules(d, token.workspace)))
  }

  lemma AcceptedContext(env: Env, store: TokenStore, value: string, surface: Surface, now: int, id: Id)
    requires Accepted(env, store, value, surface, now) == Ok(id)
    ensures id in store.tokens
    ensures var token := store.tokens[id];
      && Membership(token.account, token.workspace) in env.directory.roles
      && ContextFromToken(env, store, value, surface, now) == ContextUnder(env.directory, token)
  {
  }

  function EnabledModules(d: Directory, workspace: Id): set<string> {
    if workspace in d.modules then d.modules[workspace] else {}
  }
}

/** Whole runs of issuing, presenting, revoking and using tokens, with memberships and settings changing. */
module TokenRuns {
  import opened Text
  import opened Uuid
  import opened OperationRegistry
  import opened TokenSets
  import opened SettingsResolver
  import opened Sessions
  import opened Dispatch
  import opened Tokens
  import TokenFormat
  import Tables = WorkspaceTables

  /** A context that a request has obtained, and the token it came from, if any. */
  datatype Held = Held(ctx: Context, token: Option<Id>)

  datatype System = System(env: Env, store: TokenStore, held: map<nat, Held>)

  datatype Action =
    | Present(request: nat, value: string, surface: Surface, now: int)
    | EnterSession(request: nat, account: Id, workspace: Id)
    | EnterOperator(request: nat, workspace: Id)
    | IssueToken(request: nat, input: IssueInput, now: int, id: Id, raw: Raw)
    | Revoke(request: nat, id: Id, now: int)
    | Leave(request: nat)
    | InsertRow(id: Id, raw: Raw, token: Token)
    | Change(directory: Directory, layer: Layer, overrides: map<Id, Rows>)

  function ModulesOf(d: Directory, workspace: Id): set<string> {
    if workspace in d.modules then d.modules[workspace] else {}
  }

  predicate Serves(d: Directory, workspace: Id) { workspace in d.states && d.states[workspace] == Tables.Active }

  /** What a request comes to hold, if it is let in. */
  function Admitted(s: System, a: Action): Option<Held> {
    match a
    case Present(_, value, surface, now) =>
      (match ContextFromToken(s.env, s.store, value, surface, now)
       case Err(_) => None
       case Ok(ctx) => Some(Held(ctx, Lookup(s.store, value))))
    case EnterSession(_, account, workspace) =>
      // A session's context: the account's own role now, and every operation.
      var d, member := s.env.directory, Membership(account, workspace);
      if member !in d.roles || !Serves(d, workspace) then None
      else
        var ctx := Context(workspace, AccountActor, Some(account), d.roles[member], AllOperations,
          ModulesOf(d, workspace));
        Some(Held(ctx, None))
    case EnterOperator(_, workspace) =>
      var d := s.env.directory;
      if !Serves(d, workspace) then None
      else Some(Held(Context(workspace, OperatorActor, None, Operator, AllOperations, ModulesOf(d, workspace)), None))
    case _ => None
  }

  /** The operation is authorized for the request's context. */
  predicate Authorized(s: System, request: nat, name: OperationName) {
    request in s.held && Authorize(s.env.operations, s.held[request].ctx, name).Ok?
  }

  function KeepOr(store: TokenStore, after: Result<TokenStore, TokenRefusal>): TokenStore {
    if after.Ok? then after.value else store
  }

  /** The token tables after an action. A presentation is noted in its row even when the workspace is not served. */
  function NextStore(s: System, a: Action): TokenStore
    requires HasTokenKeys(s.env.layer)
  {
    match a
    case Present(request, value, surface, now) =>
      if request in s.held then s.store else AfterAccepted(s.env, s.store, value, surface, now)
    case IssueToken(request, input, now, id, raw) =>
      if !Authorized(s, request, TOKEN_ISSUE) || input.kind == Runtime then s.store
      else KeepOr(s.store, AfterIssue(s.env, s.store, s.held[request].ctx, input, now, id, raw))
    case Revoke(request, id, now) =>
      if !Authorized(s, request, TOKEN_REVOKE) then s.store
      else KeepOr(s.store, AfterTokenRevoke(s.store, s.held[request].ctx, id, now))
    case InsertRow(id, raw, token) =>
      if id in s.store.tokens || raw in s.store.hashes then s.store
      else TokenStore(s.store.tokens[id := token], s.store.hashes[raw := id])
    case _ => s.store
  }

  function NextHeld(s: System, a: Action): map<nat, Held> {
    if a.Leave? then s.held - {a.request}
    else if Admitted(s, a).None? || a.request in s.held then s.held
    else s.held[a.request := Admitted(s, a).value]
  }

  function NextEnv(s: System, a: Action): Env {
    if a.Change? && HasTokenKeys(a.layer) then Env(s.env.operations, a.directory, a.layer, a.overrides) else s.env
  }

  function Next(s: System, a: Action): System
    requires HasTokenKeys(s.env.layer)
  {
    System(NextEnv(s, a), NextStore(s, a), NextHeld(s, a))
  }

  function Run(s: System, actions: seq<Action>): (n: System)
    requires HasTokenKeys(s.env.layer)
    ensures HasTokenKeys(n.env.layer) && n.env.operations == s.env.operations
    decreases |actions|
  {
    if actions == [] then s else Next(Run(s, actions[..|actions| - 1]), actions[|actions| - 1])
  }

  predicate Init(s: System) {
    HasTokenKeys(s.env.layer) && s.store == TokenStore(map[], map[]) && s.held == map[]
  }

  // ---- what no action takes back ----

  /** A row keeps everything but its revocation and its last use. */
  predicate SameToken(a: Token, b: Token) {
    b == a.(revoked := b.revoked, lastUsed := b.lastUsed) && (a.revoked.Some? ==> b.revoked.Some?)
  }

  predicate Grows(l: TokenStore, m: TokenStore) {
    && (forall id <- l.tokens :: id in m.tokens && SameToken(l.tokens[id], m.tokens[id]))
    && (forall raw <- l.hashes :: raw in m.hashes && m.hashes[raw] == l.hashes[raw])
  }

  lemma NextGrows(s: System, a: Action)
    requires HasTokenKeys(s.env.layer)
    ensures Grows(s.store, NextStore(s, a))
  {
  }

  lemma GrowsTransitive(l: TokenStore, m: TokenStore, n: TokenStore)
    requires Grows(l, m) && Grows(m, n)
    ensures Grows(l, n)
  {
  }

  lemma {:induction false} RunGrows(s: System, actions: seq<Action>, i: nat)
    requires HasTokenKeys(s.env.layer) && i <= |actions|
    ensures Grows(Run(s, actions[..i]).store, Run(s, actions).store)
    decreases |actions|
  {
    if i == |actions| {
      assert actions[..i] == actions;
    } else {
      var earlier := actions[..|actions| - 1];
      assert earlier[..i] == actions[..i];
      RunGrows(s, earlier, i);
      NextGrows(Run(s, earlier), actions[|actions| - 1]);
      GrowsTransitive(Run(s, actions[..i]).store, Run(s, earlier).store, Run(s, actions).store);
    }
  }

  // ---- where contexts and tokens come from ----

  /** The account has that role in the workspace, by the memberships of this moment. */
  predicate RoleIs(s: System, account: Id, workspace: Id, role: Role) {
    var member := Membership(account, workspace);
    member in s.env.directory.roles && s.env.directory.roles[member] == role
  }

  /** What the action that let a context in says of it, under the memberships and the token row of this moment. */
  predicate EntersAs(s: System, a: Action, held: Held) {
    && (held.ctx.actor.Some? ==> RoleIs(s, held.ctx.actor.value, held.ctx.workspace, held.ctx.role))
    && (held.ctx.workspace, Tables.Active) in s.env.directory.states.Items
    && held.ctx.modules == EnabledModules(s.env.directory, held.ctx.workspace)
    && match a
       case Present(_, value, surface, now) =>
         && held.ctx.actorKind == TokenActor && held.token == Lookup(s.store, value) && held.token.Some?
         && held.token.value in s.store.tokens
         && var token := s.store.tokens[held.token.value];
            && held.ctx.operations == Only(token.snapshot) && token.snapshot !! NON_ISSUABLE
            && held.ctx.actor == Some(token.account) && held.ctx.workspace == token.workspace
       case EnterSession(_, account, workspace) =>
         && held.ctx.actorKind == AccountActor && held.token.None?
         && held.ctx.actor == Some(account) && held.ctx.workspace == workspace && held.ctx.operations == AllOperations
       case EnterOperator(_, workspace) =>
         && held.ctx.actorKind == OperatorActor && held.token.None?
         && held.ctx.actor.None? && held.ctx.workspace == workspace
         && held.ctx.operations == AllOperations && held.ctx.role == Operator
       case _ => false
  }

  lemma AdmittedEnters(s: System, a: Action)
    requires Admitted(s, a).Some?
    ensures EntersAs(s, a, Admitted(s, a).value)
  {
  }

  /** From just after action `j` to the end of the run the request holds that context, and holds it unchanged. */
  ghost predicate HeldSince(s: System, actions: seq<Action>, j: nat, request: nat, held: Held)
    requires HasTokenKeys(s.env.layer)
  {
    forall l: nat | j < l <= |actions| ::
      request in Run(s, actions[..l]).held && Run(s, actions[..l]).held[request] == held
  }

  /** Action `j` of the run let the request in, with the context that it has held ever since. */
  ghost predicate EnteredAt(s: System, actions: seq<Action>, j: nat, request: nat, held: Held)
    requires HasTokenKeys(s.env.layer)
  {
    && j < |actions| && EntersAs(Run(s, actions[..j]), actions[j], held) && actions[j].request == request
    && Admitted(Run(s, actions[..j]), actions[j]) == Some(held) && request !in Run(s, actions[..j]).held
    && HeldSince(s, actions, j, request, held)
  }

  /** A context that a request still holds is the one it held before. */
  lemma HeldStays(s: System, a: Action, request: nat)
    requires request in s.held && request in NextHeld(s, a)
    ensures NextHeld(s, a)[request] == s.held[request]
  {
  }

  lemma SinceStays(s: System, actions: seq<Action>, j: nat, request: nat, held: Held)
    requires HasTokenKeys(s.env.layer) && actions != [] && HeldSince(s, actions[..|actions| - 1], j, request, held)
    requires request in Run(s, actions).held && Run(s, actions).held[request] == held
    ensures HeldSince(s, actions, j, request, held)
  {
    var earlier := actions[..|actions| - 1];
    forall l: nat | j < l <= |actions|
      ensures request in Run(s, actions[..l]).held && Run(s, actions[..l]).held[request] == held
    {
      assert actions[..l] == if l == |actions| then actions else earlier[..l];
    }
  }

  lemma EnteredStays(s: System, actions: seq<Action>, j: nat, request: nat, held: Held)
    requires HasTokenKeys(s.env.layer) && actions != []
    requires EnteredAt(s, actions[..|actions| - 1], j, request, held)
    requires request in Run(s, actions).held && Run(s, actions).held[request] == held
    ensures EnteredAt(s, actions, j, request, held)
  {
    assert actions[..|actions| - 1][..j] == actions[..j];
    SinceStays(s, actions, j, request, held);
  }

  lemma {:induction false} HeldOrigin(s: System, actions: seq<Action>, request: nat) returns (j: nat)
    requires Init(s) && request in Run(s, actions).held
    ensures EnteredAt(s, actions, j, request, Run(s, actions).held[request])
    decreases |actions|
  {
    var earlier, last := actions[..|actions| - 1], actions[|actions| - 1];
    var before := Run(s, earlier);
    if request in before.held {
      HeldStays(before, last, request);
      j := HeldOrigin(s, earlier, request);
      EnteredStays(s, actions, j, request, before.held[request]);
    } else {
      AdmittedEnters(before, last);
      j := |actions| - 1;
      assert actions[..j + 1] == actions;
    }
  }

  lemma {:induction false} TokenOrigin(s: System, actions: seq<Action>, id: Id) returns (i: nat)
    requires Init(s) && id in Run(s, actions).store.tokens
    ensures i < |actions| && id !in Run(s, actions[..i]).store.tokens
    ensures id in NextStore(Run(s, actions[..i]), actions[i]).tokens
    ensures SameToken(NextStore(Run(s, actions[..i]), actions[i]).tokens[id], Run(s, actions).store.tokens[id])
    decreases |actions|
  {
    var earlier, last := actions[..|actions| - 1], actions[|actions| - 1];
    var before := Run(s, earlier);
    if id in before.store.tokens {
      i := TokenOrigin(s, earlier, id);
      assert earlier[..i] == actions[..i];
      NextGrows(before, last);
    } else {
      i := |actions| - 1;
    }
  }

  // ---- the theorems ----

  /** The context came from presenting a token, and is confined to the token's stored snapshot. */
  lemma TokenContext(s: System, actions: seq<Action>, request: nat) returns (j: nat)
    requires Init(s) && request in Run(s, actions).held
    ensures var n := Run(s, actions);
      var held := n.held[request];
      && EnteredAt(s, actions, j, request, held)
      && (held.token.Some? <==> held.ctx.actorKind == TokenActor) && (held.token.Some? <==> actions[j].Present?)
      && (held.token.Some? ==>
            && held.token.value in n.store.tokens
            && var token := n.store.tokens[held.token.value];
               && held.ctx.operations == Only(token.snapshot) && token.snapshot !! NON_ISSUABLE
               && held.ctx.actor == Some(token.account) && held.ctx.workspace == token.workspace)
  {
    j := HeldOrigin(s, actions, request);
    RunGrows(s, actions, j);
  }

  /** Of a context from a token, what it may run: in the snapshot, none of the six, and open to the role. */
  predicate InScope(n: System, held: Held, name: OperationName) {
    && held.token.Some? && held.token.value in n.store.tokens
    && name in n.store.tokens[held.token.value].snapshot && name !in NON_ISSUABLE
    && name in n.env.operations && held.ctx.role in n.env.operations[name].declaration.roles
  }

  /**
   * Over any run, with rows inserted behind the operations' back and memberships, settings and
   * workspaces changing at will: whatever is authorized under a token is in its stored snapshot, is none
   * of the six names, and is allowed to the role that the token's account had, in the token's workspace,
   * when this request presented the token and was let in.
   */
  lemma TokensStayInScope(s: System, actions: seq<Action>, request: nat, name: OperationName)
    requires Init(s) && Authorized(Run(s, actions), request, name) && Run(s, actions).held[request].token.Some?
    ensures var n := Run(s, actions);
      var held := n.held[request];
      && InScope(n, held, name)
      && exists j: nat ::
           && EnteredAt(s, actions, j, request, held) && actions[j].Present?
           && var token := n.store.tokens[held.token.value];
              RoleIs(Run(s, actions[..j]), token.account, token.workspace, held.ctx.role)
  {
    var j := TokenContext(s, actions, request);
  }

  /** A token's context is never authorized for one of the six. */
  lemma TokensCannotIssue(s: System, actions: seq<Action>, request: nat, name: OperationName)
    requires Init(s) && Authorized(Run(s, actions), request, name) && name in NON_ISSUABLE
    ensures Run(s, actions).held[request].token.None? && Run(s, actions).held[request].ctx.actorKind != TokenActor
  {
    var j := TokenContext(s, actions, request);
  }

  /** No token was put in the table from outside under that id. */
  predicate NotInserted(actions: seq<Action>, id: Id) { forall a <- actions :: a.InsertRow? ==> a.id != id }

  /**
   * Action `i` issued the token: the id was free, the request was authorized to issue and its context did
   * not come from a token, and the row was written.
   */
  ghost predicate IssuedAt(s: System, actions: seq<Action>, i: nat, id: Id, token: Token)
    requires HasTokenKeys(s.env.layer)
  {
    && i < |actions| && actions[i].IssueToken? && actions[i].id == id && actions[i].input.kind != Runtime
    && var m, a := Run(s, actions[..i]), actions[i];
       && id !in m.store.tokens && Authorized(m, a.request, TOKEN_ISSUE) && m.held[a.request].token.None?
       && AfterIssue(m.env, m.store, m.held[a.request].ctx, a.input, a.now, id, a.raw).Ok?
       && Survivors(m.env, m.held[a.request].ctx, a.input).Ok?
       && var granted := Survivors(m.env, m.held[a.request].ctx, a.input).value;
          && token.account == granted.account && token.snapshot == granted.names
          && token.workspace == m.held[a.request].ctx.workspace && token.kind == a.input.kind
          && token.expires == a.now + DAY * MaxDays(m.env, token.workspace, token.kind)
  }

  lemma IssueOrigin(s: System, actions: seq<Action>, id: Id) returns (i: nat)
    requires Init(s) && id in Run(s, actions).store.tokens && NotInserted(actions, id)
    ensures IssuedAt(s, actions, i, id, Run(s, actions).store.tokens[id])
  {
    i := TokenOrigin(s, actions, id);
    assert actions[i] in actions;
    TokensCannotIssue(s, actions[..i], actions[i].request, TOKEN_ISSUE);
  }

  /** What the role of the account in the workspace, at this moment, is allowed to run. */
  predicate RoleAllows(s: System, account: Id, workspace: Id, names: set<OperationName>) {
    var member := Membership(account, workspace);
    member in s.env.directory.roles && names <= RolePermitted(s.env.operations, s.env.directory.roles[member])
  }

  /** Whose memberships bounded the issue: those read by an operator's issue itself, or at an account's own entry. */
  ghost predicate BoundedAt(s: System, actions: seq<Action>, i: nat, j: nat, token: Token)
    requires HasTokenKeys(s.env.layer)
  {
    && j <= i < |actions| && actions[i].IssueToken? && actions[i].request in Run(s, actions[..i]).held
    && RoleAllows(Run(s, actions[..j]), token.account, token.workspace, token.snapshot)
    && var request := actions[i].request;
       var held := Run(s, actions[..i]).held[request];
       if held.ctx.actorKind.OperatorActor? then j == i
       else
         && EnteredAt(s, actions[..i], j, request, held)
         && actions[j] == EnterSession(request, token.account, token.workspace)
  }

  lemma IssueIsBounded(s: System, actions: seq<Action>, i: nat, id: Id, token: Token) returns (j: nat)
    requires Init(s) && IssuedAt(s, actions, i, id, token)
    ensures BoundedAt(s, actions, i, j, token) && token.snapshot != {} && token.snapshot !! NON_ISSUABLE
  {
    var m, a := Run(s, actions[..i]), actions[i];
    var ctx := m.held[a.request].ctx;
    SurvivorsAreBounded(m.env, ctx, a.input);
    if ctx.actorKind.AccountActor? {
      j := HeldOrigin(s, actions[..i], a.request);
      assert actions[..i][..j] == actions[..j];
    } else {
      j := i;
    }
  }

  /**
   * Over any run, every token in the table that was not put there from outside was issued, to a request
   * that had not come in by a token; its snapshot is not empty, holds none of the six, and lies within
   * what its account's role in its workspace allowed: at the issue, when an operator issued it, and at
   * the account's entry, when the account did.
   */
  lemma IssuedWithinRole(s: System, actions: seq<Action>, id: Id)
    requires Init(s) && id in Run(s, actions).store.tokens && NotInserted(actions, id)
    ensures var token := Run(s, actions).store.tokens[id];
      && token.snapshot != {} && token.snapshot !! NON_ISSUABLE
      && exists i: nat, j: nat :: IssuedAt(s, actions, i, id, token) && BoundedAt(s, actions, i, j, token)
  {
    var i := IssueOrigin(s, actions, id);
    var j := IssueIsBounded(s, actions, i, id, Run(s, actions).store.tokens[id]);
  }

  /** No value is accepted as the token from that moment on, whatever the surface. */
  ghost predicate RefusedFrom(n: System, id: Id, end: int) {
    forall value, surface, now :: Accepted(n.env, n.store, value, surface, now) == Ok(id) ==> now < end
  }

  lemma DeadlineRefuses(n: System, id: Id, end: int)
    requires id in n.store.tokens && n.store.tokens[id].expires <= end
    ensures RefusedFrom(n, id, end)
  {
  }

  lemma DeadlineIsTheDeployments(s: System, actions: seq<Action>, i: nat, id: Id, token: Token)
    requires HasTokenKeys(s.env.layer) && IssuedAt(s, actions, i, id, token)
    ensures var days := DeploymentDays(Run(s, actions[..i]).env.layer, actions[i].input.kind);
      token.expires <= actions[i].now + DAY * days
  {
    WorkspaceCannotExtend(Run(s, actions[..i]).env, token.workspace, token.kind);
  }

  /** Action `i` issued the token, and nothing is accepted as it past the deployment's days from then. */
  ghost predicate ExpiresFrom(s: System, actions: seq<Action>, i: nat, id: Id)
    requires HasTokenKeys(s.env.layer)
  {
    && id in Run(s, actions).store.tokens && IssuedAt(s, actions, i, id, Run(s, actions).store.tokens[id])
    && var days := DeploymentDays(Run(s, actions[..i]).env.layer, actions[i].input.kind);
       RefusedFrom(Run(s, actions), id, actions[i].now + DAY * days)
  }

  /**
   * No issued token is accepted from its issue plus the days of the deployment layer, for its kind and
   * as it stood at the issue, onward; whatever the workspace's override rows said then or say now.
   */
  lemma LifetimeIsTheDeployments(s: System, actions: seq<Action>, id: Id)
    requires Init(s) && id in Run(s, actions).store.tokens && NotInserted(actions, id)
    ensures exists i: nat :: ExpiresFrom(s, actions, i, id)
  {
    var i := IssueOrigin(s, actions, id);
    DeadlineIsTheDeployments(s, actions, i, id, Run(s, actions).store.tokens[id]);
    var days := DeploymentDays(Run(s, actions[..i]).env.layer, actions[i].input.kind);
    DeadlineRefuses(Run(s, actions), id, actions[i].now + DAY * days);
    assert ExpiresFrom(s, actions, i, id);
  }

  /** The request may revoke the token: it may revoke at all, in the token's workspace, and for an account its own. */
  predicate MayRevoke(s: System, request: nat, id: Id) {
    && Authorized(s, request, TOKEN_REVOKE) && id in s.store.tokens
    && var ctx, token := s.held[request].ctx, s.store.tokens[id];
       && ctx.workspace == token.workspace
       && (ctx.actorKind.AccountActor? ==> ctx.actor == Some(token.account))
  }

  /**
   * A token is revoked exactly by an operator's or its own account's request, in its own workspace; one
   * that came in by a token never revokes, and nothing else takes back or moves a revocation.
   */
  lemma OnlyOwnersRevoke(s: System, actions: seq<Action>, a: Action, id: Id)
    requires Init(s) && id in Run(s, actions).store.tokens
    ensures var n := Run(s, actions);
      var before, after, revokes := n.store.tokens[id], NextStore(n, a).tokens, a.Revoke? && a.id == id;
      && id in after
      && after[id].revoked == (if revokes && MayRevoke(n, a.request, id) then Some(a.now) else before.revoked)
      && (revokes && MayRevoke(n, a.request, id) ==> n.held[a.request].ctx.actorKind != TokenActor)
  {
    if a.Revoke? && Authorized(Run(s, actions), a.request, TOKEN_REVOKE) {
      TokensCannotIssue(s, actions, a.request, TOKEN_REVOKE);
    }
  }

  /** A revocation takes effect: whatever happens afterwards, the token is refused on every surface. */
  lemma RevocationIsFinal(
    s: System, a: Action, actions: seq<Action>, id: Id, value: string, surface: Surface, now: int)
    requires HasTokenKeys(s.env.layer) && a.Revoke? && a.id == id && MayRevoke(s, a.request, id)
    ensures var n := Run(Next(s, a), actions);
      && id in n.store.tokens && n.store.tokens[id].revoked.Some?
      && Accepted(n.env, n.store, value, surface, now) != Ok(id)
  {
    RevokeMarks(s, a, id);
    assert actions[..0] == [];
    RunGrows(Next(s, a), actions, 0);
    RevokedIsRefused(Run(Next(s, a), actions), id, value, surface, now);
  }

  lemma RevokeMarks(s: System, a: Action, id: Id)
    requires HasTokenKeys(s.env.layer) && a.Revoke? && a.id == id && MayRevoke(s, a.request, id)
    ensures id in NextStore(s, a).tokens && NextStore(s, a).tokens[id].revoked == Some(a.now)
  {
  }

  lemma RevokedIsRefused(s: System, id: Id, value: string, surface: Surface, now: int)
    requires id in s.store.tokens && s.store.tokens[id].revoked.Some?
    ensures Accepted(s.env, s.store, value, surface, now) != Ok(id)
  {
  }

  /**
   * A presentation lets its request in exactly when it yields a context, which the request then holds; a
   * value that is accepted has its use noted in its token's row, and nothing else is written.
   */
  lemma PresentEnters(s: System, presenter: nat, value: string, surface: Surface, now: int)
    requires HasTokenKeys(s.env.layer) && presenter !in s.held
    ensures var held := Next(s, Present(presenter, value, surface, now)).held;
      var r := ContextFromToken(s.env, s.store, value, surface, now);
      && (presenter in held <==> r.Ok?)
      && (r.Ok? ==> held[presenter].ctx == r.value)
      && var accepted := Accepted(s.env, s.store, value, surface, now);
         NextStore(s, Present(presenter, value, surface, now)) ==
           if accepted.Err? then s.store
           else s.store.(tokens := s.store.tokens[
             accepted.value := s.store.tokens[accepted.value].(lastUsed := Some(now))])
  {
  }

  lemma IssueWrites(s: System, issuer: nat, input: IssueInput, now: int, id: Id, raw: Raw)
    requires HasTokenKeys(s.env.layer) && input.kind != Runtime && Authorized(s, issuer, TOKEN_ISSUE)
    requires AfterIssue(s.env, s.store, s.held[issuer].ctx, input, now, id, raw).Ok?
    ensures var after := AfterIssue(s.env, s.store, s.held[issuer].ctx, input, now, id, raw).value;
      Next(s, IssueToken(issuer, input, now, id, raw)) == s.(store := after)
  {
  }

  /** What a token's context may run. */
  lemma SnapshotIsAuthorized(operations: Operations, ctx: Context, snapshot: set<OperationName>, name: OperationName)
    requires ctx.operations == Only(snapshot)
    ensures Authorize(operations, ctx, name).Ok? <==>
      && name in snapshot && name in operations && ctx.role in operations[name].declaration.roles
      && operations[name].owner in ctx.modules + {CORE}
  {
  }

  /**
   * From issue to use. The value of a token that an authorized request issues lets another request in
   * exactly on the surfaces of its kind, before its deadline, for a member of a workspace that is served;
   * and that request may then run exactly the names asked for that the target's role might carry, where
   * the account's role of now and the enabled modules allow them.
   */
  lemma IssueThenPresent(
    s: System, issuer: nat, input: IssueInput, now: int, id: Id, raw: Raw,
    presenter: nat, surface: Surface, moment: int, name: OperationName)
    requires HasTokenKeys(s.env.layer) && |raw.bytes| == TokenFormat.RAW_BYTES && input.kind != Runtime
    requires Authorized(s, issuer, TOKEN_ISSUE) && presenter !in s.held
    requires AfterIssue(s.env, s.store, s.held[issuer].ctx, input, now, id, raw).Ok?
    ensures var s1 := Next(s, IssueToken(issuer, input, now, id, raw));
      var s2 := Next(s1, Present(presenter, TokenFormat.Mint(KindText(input.kind), raw.bytes), surface, moment));
      var ctx, operations := s.held[issuer].ctx, s.env.operations;
      && id in s1.store.tokens && RoleOfTarget(s.env, ctx, input).Some?
      && var account, d := s1.store.tokens[id].account, s.env.directory;
         var member := Membership(account, ctx.workspace);
         var enters :=
           && (surface.McpSurface? || surface.Api?) && (surface.McpSurface? ==> input.kind == Mcp)
           && moment < now + DAY * MaxDays(s.env, ctx.workspace, input.kind)
           && member in d.roles && (ctx.workspace, Tables.Active) in d.states.Items;
         && (presenter in s2.held <==> enters)
         && (Authorized(s2, presenter, name) <==>
               && enters && MayCarry(operations, RoleOfTarget(s.env, ctx, input).value, input, name)
               && d.roles[member] in operations[name].declaration.roles
               && operations[name].owner in EnabledModules(d, ctx.workspace) + {CORE})
  {
    var ctx := s.held[issuer].ctx;
    var s1 := Next(s, IssueToken(issuer, input, now, id, raw));
    var value := TokenFormat.Mint(KindText(input.kind), raw.bytes);
    IssueWrites(s, issuer, input, now, id, raw);
    IssuedRow(s.env, s.store, ctx, input, now, id, raw);
    IssuedValueIsAccepted(s.env, s.store, ctx, input, now, id, raw, s.env, surface, moment);
    PresentEnters(s1, presenter, value, surface, moment);
    var s2 := Next(s1, Present(presenter, value, surface, moment));
    if presenter in s2.held {
      SnapshotIsAuthorized(s.env.operations, s2.held[presenter].ctx, s1.store.tokens[id].snapshot, name);
    }
  }

  /** A revoked token is refused after any further run. */
  lemma RevokedStaysRevoked(s: System, actions: seq<Action>, id: Id, value: string, surface: Surface, now: int)
    requires HasTokenKeys(s.env.layer) && id in s.store.tokens && s.store.tokens[id].revoked.Some?
    requires Lookup(Run(s, actions).store, value) == Some(id)
    ensures var n := Run(s, actions);
      Accepted(n.env, n.store, value, surface, now) in {Err(TokenWrongKind), Err(TokenExpired), Err(TokenRevoked)}
  {
    assert actions[..0] == [];
    RunGrows(s, actions, 0);
  }
}
