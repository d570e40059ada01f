/** Sessions, their per-host secrets and the single-use grants that carry a session to another host. */
module Sessions {
  import opened Text
  import opened Uuid
  import opened OperationRegistry
  import Tables = WorkspaceTables

  datatype Host = Host(name: string)

  /** Secrets, codes and nonces are stored as SHA-256 digests; the digest is taken to be injective. */
  datatype Secret = Secret(raw: string)

  datatype Code = Code(raw: string)

  datatype Nonce = Nonce(raw: string)

  datatype Session = Session(
    account: Id, workspace: Option<Id>, switched: Option<int>, created: int, lastSeen: int, expires: int,
    revoked: Option<int>)

  datatype HostSecret = HostSecret(session: Id, host: Host)

  datatype Grant = Grant(session: Id, host: Host, nonce: Nonce, expires: int, used: Option<int>)

  datatype Store = Store(sessions: map<Id, Session>, secrets: map<Secret, HostSecret>, grants: map<Code, Grant>)

  datatype Membership = Membership(account: Id, workspace: Id)

  /** What the session code only reads: memberships, workspace states and enabled modules. */
  datatype Directory = Directory(
    roles: map<Membership, Role>, states: map<Id, Tables.WorkspaceState>, modules: map<Id, set<string>>)

  /** `identity.session_idle_days` and `identity.session_max_days`. */
  datatype Policy = Policy(idleDays: int, maxDays: int)

  /** Times are in seconds. */
  const DAY := 86400
  const GRANT_EXPIRY := 60

  datatype Failure =
    | SessionExists | SessionRowMissing | SecretExists | GrantExists | NotAMember | InvalidGrant
    | SessionMissing | SessionExpired | SessionRevoked | WorkspaceUnselected | MembershipMissing | WorkspaceUnavailable

  /** `_compute_expiry` */
  function Expiry(now: int, created: int, policy: Policy): (deadline: int)
    ensures deadline <= now + DAY * policy.idleDays && deadline <= created + DAY * policy.maxDays
    ensures deadline in {now + DAY * policy.idleDays, created + DAY * policy.maxDays}
  {
    var idle, absolute := now + DAY * policy.idleDays, created + DAY * policy.maxDays;
    if idle <= absolute then idle else absolute
  }

  // ---- each transaction, as a function on the tables ----

  function AfterCreate(store: Store, id: Id, account: Id, now: int, policy: Policy): Result<Store, Failure> {
    if id in store.sessions then Err(SessionExists)
    else
      var row := Session(account, None, None, now, now, Expiry(now, now, policy), None);
      Ok(store.(sessions := store.sessions[id := row]))
  }

  predicate HasSecret(store: Store, session: Id, host: Host) {
    exists secret <- store.secrets :: store.secrets[secret] == HostSecret(session, host)
  }

  function AfterMint(store: Store, session: Id, host: Host, secret: Secret): Result<Store, Failure> {
    if secret in store.secrets || HasSecret(store, session, host) then Err(SecretExists)
    else if session !in store.sessions then Err(SessionRowMissing)
    else Ok(store.(secrets := store.secrets[secret := HostSecret(session, host)]))
  }

  /** `touch` tests neither expiry nor revocation. */
  function AfterTouch(store: Store, session: Id, now: int, policy: Policy): Store {
    if session !in store.sessions then store
    else
      var row := store.sessions[session];
      store.(sessions := store.sessions[session := row.(lastSeen := now, expires := Expiry(now, row.created, policy))])
  }

  function AfterRevoke(store: Store, session: Id, now: int): Result<Store, Failure> {
    if session !in store.sessions then Err(SessionRowMissing)
    else Ok(store.(sessions := store.sessions[session := store.sessions[session].(revoked := Some(now))]))
  }

  function AfterSwitch(
    store: Store, directory: Directory, session: Id, workspace: Id, now: int): Result<Store, Failure>
  {
    if session !in store.sessions then Err(SessionMissing)
    else if Membership(store.sessions[session].account, workspace) !in directory.roles then Err(NotAMember)
    else Ok(store.(sessions :=
      store.sessions[session := store.sessions[session].(workspace := Some(workspace), switched := Some(now))]))
  }

  function AfterGrant(
    store: Store, session: Id, host: Host, nonce: Nonce, code: Code, now: int): Result<Store, Failure>
  {
    if code in store.grants then Err(GrantExists)
    else if session !in store.sessions then Err(SessionRowMissing)
    else Ok(store.(grants := store.grants[code := Grant(session, host, nonce, now + GRANT_EXPIRY, None)]))
  }

  /** The one conditional update of `consume_session_grant`. */
  predicate Consumable(store: Store, code: Code, host: Host, nonce: Nonce, now: int) {
    && code in store.grants && store.grants[code].used.None? && now < store.grants[code].expires
    && store.grants[code].host == host && store.grants[code].nonce == nonce
  }

  function AfterConsume(store: Store, code: Code, host: Host, nonce: Nonce, now: int): Result<Store, Failure> {
    if !Consumable(store, code, host, nonce, now) then Err(InvalidGrant)
    else Ok(store.(grants := store.grants[code := store.grants[code].(used := Some(now))]))
  }

  /** The session that a secret, presented on a host, belongs to. */
  function SessionOf(store: Store, secret: Secret, host: Host): Option<Id> {
    if secret in store.secrets && store.secrets[secret].host == host && store.secrets[secret].session in store.sessions
    then Some(store.secrets[secret].session) else None
  }

  /** `_session_row_from_cookie` */
  function LiveSession(store: Store, secret: Secret, host: Host, now: int): Option<Id> {
    match SessionOf(store, secret, host)
    case None => None
    case Some(id) =>
      if store.sessions[id].expires <= now || store.sessions[id].revoked.Some? then None else Some(id)
  }

  /** `context_from_session`, in the order of its refusals. */
  function ContextFromSession(
    store: Store, directory: Directory, secret: Secret, host: Host, now: int): Result<Context, Failure>
  {
    match SessionOf(store, secret, host)
    case None => Err(SessionMissing)
    case Some(id) =>
      var row := store.sessions[id];
      if row.expires <= now then Err(SessionExpired)
      else if row.revoked.Some? then Err(SessionRevoked)
      else match row.workspace
        case None => Err(WorkspaceUnselected)
        case Some(workspace) =>
          if Membership(row.account, workspace) !in directory.roles then Err(MembershipMissing)
          else if workspace !in directory.states || directory.states[workspace] != Tables.Active then
            Err(WorkspaceUnavailable)
          else
            var role := directory.roles[Membership(row.account, workspace)];
            Ok(Context(workspace, AccountActor, Some(row.account), role,
                       AllOperations, if workspace in directory.modules then directory.modules[workspace] else {}))
  }

  /**
   * Expired does not mean expired for ever: a touch brings a session back exactly when there is an idle
   * window left and the absolute deadline, under the policy of the moment, has not passed.
   */
  lemma TouchRevives(store: Store, session: Id, now: int, policy: Policy)
    requires session in store.sessions
    ensures session in AfterTouch(store, session, now, policy).sessions
    ensures var before, after := store.sessions[session], AfterTouch(store, session, now, policy).sessions[session];
      && after == before.(lastSeen := now, expires := after.expires)
      && (after.expires > now <==> policy.idleDays > 0 && now < before.created + DAY * policy.maxDays)
  {
  }

  /** The session tables of the control plane. */
  class SessionTables {
    var sessions: map<Id, Session>
    var secrets: map<Secret, HostSecret>
    var grants: map<Code, Grant>

    constructor ()
      ensures State() == Store(map[], map[], map[])
    {
      sessions, secrets, grants := map[], map[], map[];
    }

    function State(): Store
      reads this
    {
      Store(sessions, secrets, grants)
    }

    /** The row is inserted with a placeholder deadline, which the same transaction replaces. */
    method CreateSession(id: Id, account: Id, now: int, policy: Policy) returns (r: Result<Session, Failure>)
      modifies this`sessions
      ensures var after := AfterCreate(old(State()), id, account, now, policy);
        && State() == (if after.Ok? then after.value else old(State()))
        && r == (if after.Ok? then Ok(after.value.sessions[id]) else Err(after.error))
    {
      if id in sessions {
        return Err(SessionExists);
      }
      sessions := sessions[id := Session(account, None, None, now, now, now, None)];
      var expiry := Expiry(now, sessions[id].created, policy);
      sessions := sessions[id := sessions[id].(lastSeen := now, expires := expiry)];
      return Ok(sessions[id]);
    }

    method MintHostSecret(session: Id, host: Host, secret: Secret) returns (r: Result<Secret, Failure>)
      modifies this`secrets
      ensures var after := AfterMint(old(State()), session, host, secret);
        && State() == (if after.Ok? then after.value else old(State()))
        && r == (if after.Ok? then Ok(secret) else Err(after.error))
    {
      if secret in secrets || exists s <- secrets :: secrets[s] == HostSecret(session, host) {
        return Err(SecretExists);
      }
      if session !in sessions {
        return Err(SessionRowMissing);
      }
      secrets := secrets[secret := HostSecret(session, host)];
      return Ok(secret);
    }

    method Touch(session: Id, now: int, policy: Policy)
      modifies this`sessions
      ensures State() == AfterTouch(old(State()), session, now, policy)
    {
      if session !in sessions {
        return;
      }
      var expiry := Expiry(now, sessions[session].created, policy);
      sessions := sessions[session := sessions[session].(lastSeen := now, expires := expiry)];
    }

    method Revoke(session: Id, now: int) returns (r: Option<Failure>)
      modifies this`sessions
      ensures var after := AfterRevoke(old(State()), session, now);
        && State() == (if after.Ok? then after.value else old(State()))
        && r == (if after.Ok? then None else Some(after.error))
    {
      if session !in sessions {
        return Some(SessionRowMissing);
      }
      sessions := sessions[session := sessions[session].(revoked := Some(now))];
      return None;
    }

    method SwitchWorkspace(directory: Directory, session: Id, workspace: Id, now: int) returns (r: Option<Failure>)
      modifies this`sessions
      ensures var after := AfterSwitch(old(State()), directory, session, workspace, now);
        && State() == (if after.Ok? then after.value else old(State()))
        && r == (if after.Ok? then None else Some(after.error))
    {
      if session !in sessions {
        return Some(SessionMissing);
      }
      if Membership(sessions[session].account, workspace) !in directory.roles {
        return Some(NotAMember);
      }
      sessions := sessions[session := sessions[session].(workspace := Some(workspace), switched := Some(now))];
      return None;
    }

    method WriteGrant(session: Id, host: Host, nonce: Nonce, code: Code, now: int) returns (r: Result<Code, Failure>)
      modifies this`grants
      ensures var after := AfterGrant(old(State()), session, host, nonce, code, now);
        && State() == (if after.Ok? then after.value else old(State()))
        && r == (if after.Ok? then Ok(code) else Err(after.error))
    {
      if code in grants {
        return Err(GrantExists);
      }
      if session !in sessions {
        return Err(SessionRowMissing);
      }
      grants := grants[code := Grant(session, host, nonce, now + GRANT_EXPIRY, None)];
      return Ok(code);
    }

    method ConsumeGrant(code: Code, host: Host, nonce: Nonce, now: int) returns (r: Result<Grant, Failure>)
      modifies this`grants
      ensures var after := AfterConsume(old(State()), code, host, nonce, now);
        && State() == (if after.Ok? then after.value else old(State()))
        && r == (if after.Ok? then Ok(after.value.grants[code]) else Err(after.error))
    {
      if code in grants && grants[code].used.None? && now < grants[code].expires
         && grants[code].host == host && grants[code].nonce == nonce {
        grants := grants[code := grants[code].(used := Some(now))];
        return Ok(grants[code]);
      }
      return Err(InvalidGrant);
    }
  }
}

/** Any number of requests at once, on any hosts; a request may stop between two of its transactions. */
module SessionRuns {
  import opened Text
  import opened Uuid
  import opened OperationRegistry
  import opened Sessions
  import Tables = WorkspaceTables

  /** What a request will do in its second transaction. */
  datatype Pending =
    | Mint(session: Id, host: Host)
    | Write(session: Id, target: Host, nonce: Nonce)
    | Revoking(session: Id)
    | Switching(session: Id, workspace: Id)

  datatype Hosts = Hosts(identity: Host, application: set<Host>)

  datatype System = System(
    store: Store, directory: Directory, policy: Policy, hosts: Hosts, pending: map<nat, Pending>)

  datatype Action =
    | Callback(request: nat, host: Host, account: Id, session: Id, now: int)
    | ContinueHere(request: nat, secret: Secret, target: Host, nonce: Nonce, now: int)
    | ContinueThere(request: nat, host: Host, code: Code, nonce: Nonce, now: int)
    | Logout(request: nat, host: Host, secret: Secret, now: int)
    | SwitchTo(request: nat, host: Host, secret: Secret, workspace: Id, now: int)
    | Finish(request: nat, secret: Secret, code: Code, now: int)
    | Stop(request: nat)
    | TouchSession(session: Id, now: int)
    | SetPolicy(policy: Policy)
    | SetDirectory(directory: Directory)

  // ---- what the transactions do to the tables ----

  function Keep(store: Store, after: Result<Store, Failure>): Store {
    if after.Ok? then after.value else store
  }

  /** The second transaction of a request. */
  function Finished(store: Store, directory: Directory, p: Pending, secret: Secret, code: Code, now: int): Store {
    match p
    case Mint(session, host) => Keep(store, AfterMint(store, session, host, secret))
    case Write(session, target, nonce) => Keep(store, AfterGrant(store, session, target, nonce, code, now))
    case Revoking(session) => Keep(store, AfterRevoke(store, session, now))
    case Switching(session, workspace) => Keep(store, AfterSwitch(store, directory, session, workspace, now))
  }

  /** The tables after an action. */
  function NextStore(s: System, a: Action): Store {
    match a
    case Callback(request, _, account, session, now) =>
      if request in s.pending then s.store else Keep(s.store, AfterCreate(s.store, session, account, now, s.policy))
    case ContinueThere(request, host, code, nonce, now) =>
      if request in s.pending || host == s.hosts.identity || nonce.raw == "" then s.store
      else Keep(s.store, AfterConsume(s.store, code, host, nonce, now))
    case Finish(request, secret, code, now) =>
      if request !in s.pending then s.store
      else Finished(s.store, s.directory, s.pending[request], secret, code, now)
    case TouchSession(session, now) => AfterTouch(s.store, session, now, s.policy)
    case _ => s.store
  }

  // ---- the requests ----

  /** What the first transaction of a request leaves to be done, if it goes on. */
  function Started(s: System, a: Action): Option<Pending> {
    match a
    case Callback(_, host, _, session, _) =>
      // `callback`: the session is created, and the secret comes in a second transaction.
      if session in s.store.sessions then None else Some(Mint(session, host))
    case ContinueThere(_, host, code, nonce, now) =>
      // `continue_flow` on an application host: the code is consumed, and then the secret minted.
      if host == s.hosts.identity || nonce.raw == "" || !Consumable(s.store, code, host, nonce, now) then None
      else Some(Mint(s.store.grants[code].session, host))
    case ContinueHere(_, secret, target, nonce, now) =>
      // `continue_flow` on the identity host, towards another application host.
      var live := LiveSession(s.store, secret, s.hosts.identity, now);
      if target !in s.hosts.application || target == s.hosts.identity || nonce.raw == "" || live.None? then None
      else Some(Write(live.value, target, nonce))
    case Logout(_, host, secret, now) =>
      var live := LiveSession(s.store, secret, host, now);
      if live.None? then None else Some(Revoking(live.value))
    case SwitchTo(_, host, secret, workspace, now) =>
      var live := LiveSession(s.store, secret, host, now);
      if live.None? then None else Some(Switching(live.value, workspace))
    case _ => None
  }

  function NextPending(s: System, a: Action): map<nat, Pending> {
    match a
    case Finish(request, _, _, _) => s.pending - {request}
    case Stop(request) => s.pending - {request}
    case TouchSession(_, _) => s.pending
    case SetPolicy(_) => s.pending
    case SetDirectory(_) => s.pending
    case _ =>
      if a.request in s.pending || Started(s, a).None? then s.pending else s.pending[a.request := Started(s, a).value]
  }

  function Next(s: System, a: Action): System {
    System(NextStore(s, a), if a.SetDirectory? then a.directory else s.directory,
           if a.SetPolicy? then a.policy else s.policy, s.hosts, NextPending(s, a))
  }

  function Run(s: System, actions: seq<Action>): (n: System)
    ensures n.hosts == s.hosts
    decreases |actions|
  {
    if actions == [] then s else Next(Run(s, actions[..|actions| - 1]), actions[|actions| - 1])
  }

  predicate Init(s: System) { s.store == Store(map[], map[], map[]) && s.pending == map[] }

  lemma RunStep(s: System, actions: seq<Action>, i: nat)
    requires i < |actions|
    ensures Run(s, actions[..i + 1]) == Next(Run(s, actions[..i]), actions[i])
  {
    assert actions[..i + 1][..i] == actions[..i];
  }

  // ---- what no action takes back ----

  /** An account and a creation time are fixed, and a revocation stays. */
  predicate SameSession(a: Session, b: Session) {
    a.account == b.account && a.created == b.created && (a.revoked.Some? ==> b.revoked.Some?)
  }

  /** A grant keeps everything but its use, which is noted once. */
  predicate SameGrant(a: Grant, b: Grant) {
    b == a.(used := b.used) && (a.used.Some? ==> b.used == a.used)
  }

  predicate Grows(l: Store, m: Store) {
    && (forall id <- l.sessions :: id in m.sessions && SameSession(l.sessions[id], m.sessions[id]))
    && (forall secret <- l.secrets :: secret in m.secrets && m.secrets[secret] == l.secrets[secret])
    && (forall code <- l.grants :: code in m.grants && SameGrant(l.grants[code], m.grants[code]))
  }

  lemma NextGrows(s: System, a: Action)
    ensures Grows(s.store, NextStore(s, a))
  {
    if a.Finish? && a.request in s.pending {
      FinishGrows(s.store, s.directory, s.pending[a.request], a.secret, a.code, a.now);
    }
  }

  lemma FinishGrows(store: Store, directory: Directory, p: Pending, secret: Secret, code: Code, now: int)
    ensures Grows(store, Finished(store, directory, p, secret, code, now))
  {
  }

  lemma GrowsTransitive(l: Store, m: Store, n: Store)
    requires Grows(l, m) && Grows(m, n)
    ensures Grows(l, n)
  {
  }

  lemma {:induction false} RunGrows(s: System, actions: seq<Action>, i: nat)
    requires i <= |actions|
    ensures Grows(Run(s, actions[..i]).store, Run(s, actions).store)
    decreases |actions|
  {
    if i == |actions| {
      assert actions[..i] == actions;
    } else {
      var earlier := actions[..|actions| - 1];
      assert earlier[..i] == actions[..i];
      RunGrows(s, earlier, i);
      NextGrows(Run(s, earlier), actions[|actions| - 1]);
      GrowsTransitive(Run(s, actions[..i]).store, Run(s, earlier).store, Run(s, actions).store);
    }
  }

  lemma RunGrowsBetween(s: System, actions: seq<Action>, i: nat, j: nat)
    requires i <= j <= |actions|
    ensures Grows(Run(s, actions[..i]).store, Run(s, actions[..j]).store)
  {
    assert actions[..j][..i] == actions[..i];
    RunGrows(s, actions[..j], i);
  }

  // ---- where things come from ----

  /** What does not hold at the start and holds at the end begins to hold somewhere. */
  lemma {:induction false} Turn(holds: nat -> bool, n: nat) returns (i: nat)
    requires !holds(0) && holds(n)
    ensures i < n && !holds(i) && holds(i + 1)
  {
    if holds(n - 1) { i := Turn(holds, n - 1); } else { i := n - 1; }
  }

  /** The action begins a request that goes on to that second transaction. */
  predicate Begins(s: System, a: Action, request: nat, p: Pending) {
    Started(s, a) == Some(p) && a.request == request && request !in s.pending
  }

  /** From just after action `j` to the end of the run the request has that left to do. */
  ghost predicate WaitsSince(s: System, actions: seq<Action>, j: nat, request: nat, p: Pending) {
    forall l: nat | j < l <= |actions| ::
      request in Run(s, actions[..l]).pending && Run(s, actions[..l]).pending[request] == p
  }

  /** Action `j` began the request, and nothing has come of it yet. */
  ghost predicate BegunAt(s: System, actions: seq<Action>, j: nat, request: nat, p: Pending) {
    && j < |actions| && Begins(Run(s, actions[..j]), actions[j], request, p)
    && WaitsSince(s, actions, j, request, p)
  }

  lemma {:induction false} PendingOrigin(s: System, actions: seq<Action>, request: nat) returns (j: nat)
    requires Init(s) && request in Run(s, actions).pending
    ensures BegunAt(s, actions, j, request, Run(s, actions).pending[request])
    decreases |actions|
  {
    var earlier, last := actions[..|actions| - 1], actions[|actions| - 1];
    var before := Run(s, earlier);
    if request in before.pending {
      j := PendingOrigin(s, earlier, request);
      assert earlier[..j] == actions[..j];
      forall l: nat | j < l <= |actions|
        ensures var pending := Run(s, actions[..l]).pending;
          request in pending && pending[request] == before.pending[request]
      {
        assert actions[..l] == if l == |actions| then actions else earlier[..l];
      }
    } else {
      j := |actions| - 1;
      assert actions[..j + 1] == actions;
    }
  }

  /** The request of action `k` began at action `j`, with `p` as its second transaction, which action `k` runs. */
  ghost predicate EndedAt(s: System, actions: seq<Action>, j: nat, k: nat, p: Pending) {
    && k < |actions| && actions[k].Finish?
    && BegunAt(s, actions[..k], j, actions[k].request, p)
  }

  /** The callback of a login creates the session. */
  predicate LogsIn(s: System, a: Action, session: Id) {
    a.Callback? && a.request !in s.pending && a.session == session && session !in s.store.sessions
  }

  ghost predicate LoginAt(s: System, actions: seq<Action>, i: nat, session: Id, account: Id) {
    i < |actions| && LogsIn(Run(s, actions[..i]), actions[i], session) && actions[i].account == account
  }

  lemma NewSession(s: System, a: Action, session: Id)
    requires session !in s.store.sessions && session in NextStore(s, a).sessions
    ensures LogsIn(s, a, session) && NextStore(s, a).sessions[session].account == a.account
  {
  }

  lemma SessionOrigin(s: System, actions: seq<Action>, session: Id) returns (i: nat)
    requires Init(s) && session in Run(s, actions).store.sessions
    ensures LoginAt(s, actions, i, session, Run(s, actions).store.sessions[session].account)
  {
    assert actions[..|actions|] == actions && actions[..0] == [];
    i := Turn((l: nat) => l <= |actions| && session in Run(s, actions[..l]).store.sessions, |actions|);
    RunStep(s, actions, i);
    RunGrows(s, actions, i + 1);
    NewSession(Run(s, actions[..i]), actions[i], session);
  }

  /** Action `k` mints the secret, where none was, for the session and host that its request is about. */
  ghost predicate MintedAt(s: System, actions: seq<Action>, j: nat, k: nat, secret: Secret, held: HostSecret) {
    && EndedAt(s, actions, j, k, Mint(held.session, held.host)) && actions[k].secret == secret
    && secret !in Run(s, actions[..k]).store.secrets
    && AfterMint(Run(s, actions[..k]).store, held.session, held.host, secret).Ok?
  }

  lemma NewSecret(s: System, a: Action, secret: Secret)
    requires secret !in s.store.secrets && secret in NextStore(s, a).secrets
    ensures a.Finish? && a.secret == secret && a.request in s.pending && s.pending[a.request].Mint?
    ensures var p, held := s.pending[a.request], NextStore(s, a).secrets[secret];
      held == HostSecret(p.session, p.host) && AfterMint(s.store, p.session, p.host, secret).Ok?
  {
  }

  lemma SecretOrigin(s: System, actions: seq<Action>, secret: Secret) returns (j: nat, k: nat)
    requires Init(s) && secret in Run(s, actions).store.secrets
    ensures MintedAt(s, actions, j, k, secret, Run(s, actions).store.secrets[secret])
  {
    assert actions[..|actions|] == actions && actions[..0] == [];
    k := Turn((l: nat) => l <= |actions| && secret in Run(s, actions[..l]).store.secrets, |actions|);
    RunStep(s, actions, k);
    RunGrows(s, actions, k + 1);
    NewSecret(Run(s, actions[..k]), actions[k], secret);
    j := PendingOrigin(s, actions[..k], actions[k].request);
  }

  /** The secret is the session's on that host, and the session is neither expired nor revoked. */
  predicate IsLive(store: Store, secret: Secret, host: Host, session: Id, now: int) {
    && secret in store.secrets && store.secrets[secret] == HostSecret(session, host) && session in store.sessions
    && now < store.sessions[session].expires && store.sessions[session].revoked.None?
  }

  /** The action asks, on the identity host, with a secret of the session there, live, for a grant for the target. */
  predicate AsksFor(s: System, a: Action, session: Id, target: Host) {
    && a.ContinueHere? && a.target == target && target in s.hosts.application && target != s.hosts.identity
    && IsLive(s.store, a.secret, s.hosts.identity, session, a.now)
  }

  lemma WritesWereAskedFor(s: System, a: Action, request: nat, p: Pending)
    requires Begins(s, a, request, p) && p.Write?
    ensures AsksFor(s, a, p.session, p.target)
  {
  }

  /**
   * Action `i` writes the grant, for a request that the identity host began at action `h` with a secret
   * of the session there, then neither expired nor revoked.
   */
  ghost predicate WrittenAt(s: System, actions: seq<Action>, h: nat, i: nat, code: Code, grant: Grant) {
    && EndedAt(s, actions, h, i, Write(grant.session, grant.host, grant.nonce)) && actions[i].code == code
    && AfterGrant(Run(s, actions[..i]).store, grant.session, grant.host, grant.nonce, code, actions[i].now).Ok?
    && grant.expires == actions[i].now + GRANT_EXPIRY
    && AsksFor(Run(s, actions[..h]), actions[h], grant.session, grant.host)
  }

  lemma NewGrant(s: System, a: Action, code: Code)
    requires code !in s.store.grants && code in NextStore(s, a).grants
    ensures a.Finish? && a.code == code && a.request in s.pending && s.pending[a.request].Write?
    ensures var p := s.pending[a.request];
      && AfterGrant(s.store, p.session, p.target, p.nonce, code, a.now).Ok?
      && NextStore(s, a).grants[code] == Grant(p.session, p.target, p.nonce, a.now + GRANT_EXPIRY, None)
  {
  }

  lemma GrantOrigin(s: System, actions: seq<Action>, code: Code) returns (h: nat, i: nat)
    requires Init(s) && code in Run(s, actions).store.grants
    ensures WrittenAt(s, actions, h, i, code, Run(s, actions).store.grants[code])
  {
    assert actions[..|actions|] == actions && actions[..0] == [];
    i := Turn((l: nat) => l <= |actions| && code in Run(s, actions[..l]).store.grants, |actions|);
    RunStep(s, actions, i);
    RunGrows(s, actions, i + 1);
    NewGrant(Run(s, actions[..i]), actions[i], code);
    h := AskOrigin(s, actions[..i], actions[i].request);
    assert actions[..i][..h] == actions[..h];
  }

  lemma AskOrigin(s: System, actions: seq<Action>, request: nat) returns (h: nat)
    requires Init(s) && request in Run(s, actions).pending && Run(s, actions).pending[request].Write?
    ensures var p := Run(s, actions).pending[request];
      BegunAt(s, actions, h, request, p) && AsksFor(Run(s, actions[..h]), actions[h], p.session, p.target)
  {
    h := PendingOrigin(s, actions, request);
    WritesWereAskedFor(Run(s, actions[..h]), actions[h], request, Run(s, actions).pending[request]);
  }

  // ---- the theorems ----

  /** The action uses the code up: the grant's host presents it in time, with the grant's nonce. */
  predicate Consumes(s: System, a: Action, code: Code) {
    a.ContinueThere? && a.request !in s.pending && Started(s, a).Some? && a.code == code
  }

  /** A grant comes to be marked as used exactly by being consumed. */
  lemma UsedByConsuming(s: System, a: Action, code: Code)
    requires code in s.store.grants
    ensures code in NextStore(s, a).grants
    ensures NextStore(s, a).grants[code] != s.store.grants[code] <==> Consumes(s, a, code)
    ensures Consumes(s, a, code) ==> s.store.grants[code].used.None? && NextStore(s, a).grants[code].used == Some(a.now)
  {
  }

  ghost predicate ConsumedAt(s: System, actions: seq<Action>, i: nat, code: Code) {
    i < |actions| && Consumes(Run(s, actions[..i]), actions[i], code)
  }

  /** Over any run, no two actions consume one code. */
  lemma CodesAreSingleUse(s: System, actions: seq<Action>, i: nat, j: nat, code: Code)
    ensures ConsumedAt(s, actions, i, code) && ConsumedAt(s, actions, j, code) ==> i == j
  {
    if i < j && ConsumedAt(s, actions, i, code) && ConsumedAt(s, actions, j, code) {
      ConsumedBefore(s, actions, i, j, code);
    } else if j < i && ConsumedAt(s, actions, i, code) && ConsumedAt(s, actions, j, code) {
      ConsumedBefore(s, actions, j, i, code);
    }
  }

  lemma ConsumedBefore(s: System, actions: seq<Action>, i: nat, j: nat, code: Code)
    requires i < j < |actions| && Consumes(Run(s, actions[..i]), actions[i], code)
    ensures !Consumes(Run(s, actions[..j]), actions[j], code)
  {
    RunStep(s, actions, i);
    UsedByConsuming(Run(s, actions[..i]), actions[i], code);
    RunGrowsBetween(s, actions, i + 1, j);
  }

  /**
   * Action `j` consumed, on the host, a grant for the session that action `i` had written for that host
   * less than sixty seconds before, at the wish of a request begun by action `h`.
   */
  ghost predicate CarriedOver(s: System, actions: seq<Action>, h: nat, i: nat, j: nat, session: Id, host: Host) {
    && i < j < |actions| && actions[i].Finish? && actions[j].ContinueThere? && actions[j].host == host
    && ConsumedAt(s, actions, j, actions[j].code)
    && var grant := Run(s, actions[..j]).store.grants[actions[j].code];
       && grant.session == session && grant.host == host && grant.nonce == actions[j].nonce
       && actions[j].now < actions[i].now + 60
       && WrittenAt(s, actions, h, i, actions[j].code, grant)
  }

  /** Action `j` gave the host its right to a secret: it ran the login, or it consumed a grant aimed at it. */
  ghost predicate EntitledAt(s: System, actions: seq<Action>, j: nat, session: Id, host: Host) {
    && j < |actions|
    && if actions[j].Callback? then LogsIn(Run(s, actions[..j]), actions[j], session) && actions[j].host == host
       else exists h: nat, i: nat :: CarriedOver(s, actions, h, i, j, session, host)
  }

  /** A request that has a secret left to mint was begun by what entitles the host to it. */
  lemma MintsAreEntitled(s: System, actions: seq<Action>, j: nat, request: nat, session: Id, host: Host)
    requires Init(s) && j < |actions| && Begins(Run(s, actions[..j]), actions[j], request, Mint(session, host))
    ensures EntitledAt(s, actions, j, session, host)
  {
    if !actions[j].Callback? {
      var h, i := GrantOrigin(s, actions[..j], actions[j].code);
      PrefixWrittenAt(s, actions, j, h, i, actions[j].code, Run(s, actions[..j]).store.grants[actions[j].code]);
      assert CarriedOver(s, actions, h, i, j, session, host);
    }
  }

  lemma PrefixWrittenAt(s: System, actions: seq<Action>, j: nat, h: nat, i: nat, code: Code, grant: Grant)
    requires j <= |actions| && WrittenAt(s, actions[..j], h, i, code, grant)
    ensures i < j && WrittenAt(s, actions, h, i, code, grant)
  {
    assert actions[..j][..i] == actions[..i] && actions[..j][..h] == actions[..h];
  }

  /**
   * Over any run, every secret of a session on a host was minted by a request that this host began by
   * running the login's callback, or by consuming in time, with the nonce the grant was bound to, a grant
   * that was written for it earlier in the run; and that grant was asked for on the identity host with a
   * secret of the same session, live there. There is one secret at most for each session and host.
   */
  lemma SecretsAreEntitled(s: System, actions: seq<Action>, secret: Secret, other: Secret)
    requires Init(s) && secret in Run(s, actions).store.secrets
    ensures var held := Run(s, actions).store.secrets[secret];
      exists j: nat, k: nat ::
        MintedAt(s, actions, j, k, secret, held) && EntitledAt(s, actions, j, held.session, held.host)
    ensures var secrets := Run(s, actions).store.secrets;
      other in secrets && secrets[other] == secrets[secret] ==> other == secret
  {
    var j, k := SecretIsEntitled(s, actions, secret);
    RunKeepsDistinct(s, actions);
  }

  lemma SecretIsEntitled(s: System, actions: seq<Action>, secret: Secret) returns (j: nat, k: nat)
    requires Init(s) && secret in Run(s, actions).store.secrets
    ensures var held := Run(s, actions).store.secrets[secret];
      MintedAt(s, actions, j, k, secret, held) && EntitledAt(s, actions, j, held.session, held.host)
  {
    var held := Run(s, actions).store.secrets[secret];
    j, k := SecretOrigin(s, actions, secret);
    assert actions[..k][..j] == actions[..j];
    MintsAreEntitled(s, actions, j, actions[k].request, held.session, held.host);
  }

  predicate SecretsDistinct(store: Store) {
    forall a, b :: a in store.secrets && b in store.secrets && store.secrets[a] == store.secrets[b] ==> a == b
  }

  lemma NextKeepsDistinct(s: System, a: Action)
    requires SecretsDistinct(s.store)
    ensures SecretsDistinct(NextStore(s, a))
  {
    if a.Finish? && a.request in s.pending && s.pending[a.request].Mint? {
      MintKeepsDistinct(s.store, s.pending[a.request].session, s.pending[a.request].host, a.secret);
    }
  }

  lemma MintKeepsDistinct(store: Store, session: Id, host: Host, secret: Secret)
    requires SecretsDistinct(store)
    ensures SecretsDistinct(Keep(store, AfterMint(store, session, host, secret)))
  {
  }

  lemma {:induction false} RunKeepsDistinct(s: System, actions: seq<Action>)
    requires SecretsDistinct(s.store)
    ensures SecretsDistinct(Run(s, actions).store)
    decreases |actions|
  {
    if actions != [] {
      RunKeepsDistinct(s, actions[..|actions| - 1]);
      NextKeepsDistinct(Run(s, actions[..|actions| - 1]), actions[|actions| - 1]);
    }
  }

  predicate EndsRequest(a: Action, request: nat) { (a.Finish? || a.Stop?) && a.request == request }

  lemma NextKeepsWaiting(s: System, a: Action, request: nat)
    requires request in s.pending && !EndsRequest(a, request)
    ensures request in NextPending(s, a) && NextPending(s, a)[request] == s.pending[request]
  {
  }

  lemma BegunIsPending(s: System, a: Action, request: nat, p: Pending)
    requires Begins(s, a, request, p)
    ensures request in NextPending(s, a) && NextPending(s, a)[request] == p
  {
  }

  /** A request that nothing ends has still to do what it began with. */
  lemma {:induction false} WaitsUntilEnded(s: System, actions: seq<Action>, j: nat, k: nat, request: nat, p: Pending)
    requires j < k <= |actions| && Begins(Run(s, actions[..j]), actions[j], request, p)
    requires forall l | j < l < k :: !EndsRequest(actions[l], request)
    ensures request in Run(s, actions[..k]).pending && Run(s, actions[..k]).pending[request] == p
  {
    RunStep(s, actions, k - 1);
    if j < k - 1 {
      WaitsUntilEnded(s, actions, j, k - 1, request, p);
      NextKeepsWaiting(Run(s, actions[..k - 1]), actions[k - 1], request);
    } else {
      BegunIsPending(Run(s, actions[..j]), actions[j], request, p);
    }
  }

  /** Action `j` presents a live secret of the session for logging out, and action `k` ends that request. */
  ghost predicate LoggedOutAt(s: System, actions: seq<Action>, j: nat, k: nat, session: Id) {
    && j < k < |actions| && actions[j].Logout? && actions[k].Finish? && actions[k].request == actions[j].request
    && (forall l | j < l < k :: !EndsRequest(actions[l], actions[j].request))
    && var m, a := Run(s, actions[..j]), actions[j];
       a.request !in m.pending && IsLive(m.store, a.secret, a.host, session, a.now)
  }

  /**
   * A logout takes effect, whatever happens between its two transactions and after them: the session is
   * revoked for good, and no secret of it, on any host and whenever minted, yields a context or begins
   * another request.
   */
  lemma LogoutIsFinal(
    s: System, actions: seq<Action>, j: nat, k: nat, session: Id, secret: Secret, host: Host, now: int)
    requires LoggedOutAt(s, actions, j, k, session)
    ensures var n := Run(s, actions);
      && session in n.store.sessions && n.store.sessions[session].revoked.Some?
      && LiveSession(n.store, secret, host, now) != Some(session)
      && (SessionOf(n.store, secret, host) == Some(session) ==>
            ContextFromSession(n.store, n.directory, secret, host, now) in {Err(SessionExpired), Err(SessionRevoked)})
  {
    LogoutRevokes(s, actions, j, k, session);
    RunGrows(s, actions, k + 1);
  }

  lemma LogoutRevokes(s: System, actions: seq<Action>, j: nat, k: nat, session: Id)
    requires LoggedOutAt(s, actions, j, k, session)
    ensures IsRevoked(Run(s, actions[..k + 1]).store, session)
  {
    LogoutBegins(Run(s, actions[..j]), actions[j], session);
    WaitsUntilEnded(s, actions, j, k, actions[j].request, Revoking(session));
    RunGrowsBetween(s, actions, j, k);
    RunStep(s, actions, k);
    RevokingRevokes(Run(s, actions[..k]), actions[k], session);
  }

  lemma LogoutBegins(s: System, a: Action, session: Id)
    requires a.Logout? && a.request !in s.pending && IsLive(s.store, a.secret, a.host, session, a.now)
    ensures Begins(s, a, a.request, Revoking(session)) && session in s.store.sessions
  {
  }

  lemma RevokingRevokes(s: System, a: Action, session: Id)
    requires a.Finish? && a.request in s.pending && s.pending[a.request] == Revoking(session)
    requires session in s.store.sessions
    ensures IsRevoked(NextStore(s, a), session)
  {
  }

  /** A session is revoked only by the end of a logout that was begun with a live secret of it. */
  lemma RevocationOrigin(s: System, actions: seq<Action>, session: Id) returns (j: nat, k: nat)
    requires Init(s) && session in Run(s, actions).store.sessions
    requires Run(s, actions).store.sessions[session].revoked.Some?
    ensures EndedAt(s, actions, j, k, Revoking(session)) && actions[j].Logout?
    ensures var m, a := Run(s, actions[..j]), actions[j]; IsLive(m.store, a.secret, a.host, session, a.now)
  {
    assert actions[..|actions|] == actions && actions[..0] == [];
    k := Turn((l: nat) => l <= |actions| && IsRevoked(Run(s, actions[..l]).store, session), |actions|);
    RunStep(s, actions, k);
    NewRevocation(Run(s, actions[..k]), actions[k], session);
    j := PendingOrigin(s, actions[..k], actions[k].request);
    assert actions[..k][..j] == actions[..j];
    OnlyLogoutRevokes(Run(s, actions[..j]), actions[j], actions[k].request, session);
  }

  lemma OnlyLogoutRevokes(s: System, a: Action, request: nat, session: Id)
    requires Begins(s, a, request, Revoking(session))
    ensures a.Logout? && IsLive(s.store, a.secret, a.host, session, a.now)
  {
  }

  predicate IsRevoked(store: Store, session: Id) {
    session in store.sessions && store.sessions[session].revoked.Some?
  }

  lemma NewRevocation(s: System, a: Action, session: Id)
    requires !IsRevoked(s.store, session) && IsRevoked(NextStore(s, a), session)
    ensures a.Finish? && a.request in s.pending && s.pending[a.request] == Revoking(session)
  {
  }

  // ---- from login to a context, and from host to host ----

  /** What `context_from_session` answers for a session of the account in the workspace. */
  function ContextOf(d: Directory, account: Id, workspace: Id, expires: int, now: int): Result<Context, Failure> {
    var member := Membership(account, workspace);
    if expires <= now then Err(SessionExpired)
    else if member !in d.roles then Err(WorkspaceUnselected)
    else if (workspace, Tables.Active) !in d.states.Items then Err(WorkspaceUnavailable)
    else
      var modules := if workspace in d.modules then d.modules[workspace] else {};
      Ok(Context(workspace, AccountActor, Some(account), d.roles[member], AllOperations, modules))
  }

  /**
   * A login works: the callback, its secret, and a choice of workspace, one after the other, give a
   * secret that yields the account's own context in that workspace, until the deadline; without a
   * membership there the choice is refused and no workspace is selected.
   */
  lemma LoginGivesContext(
    s: System, request: nat, host: Host, account: Id, session: Id, secret: Secret, code: Code, workspace: Id,
    login: int, choice: int, now: int)
    requires request !in s.pending && session !in s.store.sessions && secret !in s.store.secrets
    requires forall other <- s.store.secrets :: s.store.secrets[other].session != session
    requires choice < login + DAY * s.policy.idleDays && choice < login + DAY * s.policy.maxDays
    ensures var s1 := Next(s, Callback(request, host, account, session, login));
      var s2 := Next(s1, Finish(request, secret, code, login));
      var s3 := Next(s2, SwitchTo(request, host, secret, workspace, choice));
      var s4 := Next(s3, Finish(request, secret, code, choice));
      var days := if s.policy.idleDays <= s.policy.maxDays then s.policy.idleDays else s.policy.maxDays;
      && request !in s4.pending
      && ContextFromSession(s4.store, s4.directory, secret, host, now)
         == ContextOf(s.directory, account, workspace, login + DAY * days, now)
  {
    var s1 := Next(s, Callback(request, host, account, session, login));
    assert s1.pending[request] == Mint(session, host) && !HasSecret(s1.store, session, host);
    var s2 := Next(s1, Finish(request, secret, code, login));
    assert IsLive(s2.store, secret, host, session, choice);
    var s3 := Next(s2, SwitchTo(request, host, secret, workspace, choice));
    assert s3.store == s2.store && s3.pending[request] == Switching(session, workspace);
  }

  /**
   * A session is carried to another host: a grant asked for with a live secret on the identity host and
   * consumed on its target within sixty seconds, with the same nonce, gives the target a secret that
   * yields what the first one does.
   */
  lemma HopGivesSameContext(
    s: System, request: nat, session: Id, secret: Secret, target: Host, nonce: Nonce, code: Code, other: Secret,
    asked: int, written: int, consumed: int, now: int)
    requires request !in s.pending && IsLive(s.store, secret, s.hosts.identity, session, asked)
    requires target in s.hosts.application && target != s.hosts.identity && nonce.raw != ""
    requires code !in s.store.grants && other !in s.store.secrets && !HasSecret(s.store, session, target)
    requires consumed < written + 60
    ensures var s1 := Next(s, ContinueHere(request, secret, target, nonce, asked));
      var s2 := Next(s1, Finish(request, other, code, written));
      var s3 := Next(s2, ContinueThere(request, target, code, nonce, consumed));
      var s4 := Next(s3, Finish(request, other, code, consumed));
      && request !in s4.pending
      && SessionOf(s4.store, other, target) == Some(session) == SessionOf(s4.store, secret, s.hosts.identity)
      && ContextFromSession(s4.store, s4.directory, other, target, now)
         == ContextFromSession(s.store, s.directory, secret, s.hosts.identity, now)
  {
    var s1 := Next(s, ContinueHere(request, secret, target, nonce, asked));
    assert s1.store == s.store && s1.pending[request] == Write(session, target, nonce);
    var s2 := Next(s1, Finish(request, other, code, written));
    assert s2.store.grants[code] == Grant(session, target, nonce, written + GRANT_EXPIRY, None);
    var s3 := Next(s2, ContinueThere(request, target, code, nonce, consumed));
    assert s3.pending[request] == Mint(session, target) && !HasSecret(s3.store, session, target);
  }

  /**
   * Once a session is revoked, no secret of it, on any host and whenever minted, yields a context after
   * any further run.
   */
  lemma RevokedForEver(s: System, actions: seq<Action>, session: Id, secret: Secret, host: Host, now: int)
    requires session in s.store.sessions && s.store.sessions[session].revoked.Some?
    requires SessionOf(Run(s, actions).store, secret, host) == Some(session)
    ensures var n := Run(s, actions);
      ContextFromSession(n.store, n.directory, secret, host, now) in {Err(SessionExpired), Err(SessionRevoked)}
  {
    assert actions[..0] == [];
    RunGrows(s, actions, 0);
  }

  /** A session's workspace changes only to one that its account is a member of at that moment. */
  lemma SwitchNeedsMembership(s: System, a: Action, session: Id)
    requires session in s.store.sessions
    ensures session in NextStore(s, a).sessions
    ensures var before, after := s.store.sessions[session], NextStore(s, a).sessions[session];
      after.workspace != before.workspace ==>
        after.workspace.Some? && Membership(before.account, after.workspace.value) in s.directory.roles
  {
    if a.Finish? && a.request in s.pending {
      var m := Finished(s.store, s.directory, s.pending[a.request], a.secret, a.code, a.now);
      assert session in m.sessions;
    }
  }

  /** The policies in force are at most `bound` days. */
  predicate PolicyWithin(s: System, actions: seq<Action>, bound: int) {
    s.policy.maxDays <= bound && forall a <- actions :: a.SetPolicy? ==> a.policy.maxDays <= bound
  }

  predicate Bounded(s: System, session: Id, bound: int) {
    session in s.store.sessions ==>
      s.store.sessions[session].expires <= s.store.sessions[session].created + DAY * bound
  }

  /** `created` plus the largest `max_days` in force bounds every deadline that is ever written. */
  lemma {:induction false} DeadlinesAreBounded(s: System, actions: seq<Action>, session: Id, bound: int)
    requires PolicyWithin(s, actions, bound) && Bounded(s, session, bound)
    ensures Bounded(Run(s, actions), session, bound) && Run(s, actions).policy.maxDays <= bound
    decreases |actions|
  {
    if actions != [] {
      var earlier, last := actions[..|actions| - 1], actions[|actions| - 1];
      assert last in actions && forall a <- earlier :: a in actions;
      DeadlinesAreBounded(s, earlier, session, bound);
      NextKeepsBounded(Run(s, earlier), last, session, bound);
    }
  }

  lemma NextKeepsBounded(s: System, a: Action, session: Id, bound: int)
    requires Bounded(s, session, bound) && s.policy.maxDays <= bound
    ensures Bounded(Next(s, a), session, bound)
  {
  }

  /**
   * No context is given from `created` plus the largest `max_days` in force since then, however often
   * the session is touched. It starts where the session does, or before.
   */
  lemma NoContextPastTheBound(
    s: System, actions: seq<Action>, session: Id, bound: int, secret: Secret, host: Host, now: int)
    requires PolicyWithin(s, actions, bound) && Bounded(s, session, bound)
    requires SessionOf(Run(s, actions).store, secret, host) == Some(session)
    ensures var n := Run(s, actions);
      ContextFromSession(n.store, n.directory, secret, host, now).Ok? ==>
        now < n.store.sessions[session].created + DAY * bound
  {
    DeadlinesAreBounded(s, actions, session, bound);
  }

  /**
   * From login to request: a context names the account that logged in for the session, with the role
   * it has now in the active workspace it has now, on a host entitled to the session, which is neither
   * revoked nor past its deadline.
   */
  lemma ContextTracesToLogin(s: System, actions: seq<Action>, secret: Secret, host: Host, now: int)
    requires Init(s)
    requires var n := Run(s, actions); ContextFromSession(n.store, n.directory, secret, host, now).Ok?
    ensures var n := Run(s, actions);
      var ctx := ContextFromSession(n.store, n.directory, secret, host, now).value;
      var session := SessionOf(n.store, secret, host);
      && session.Some? && session.value in n.store.sessions && ctx.actor.Some?
      && (exists i: nat :: LoginAt(s, actions, i, session.value, ctx.actor.value))
      && (exists j: nat, k: nat ::
            && MintedAt(s, actions, j, k, secret, HostSecret(session.value, host))
            && EntitledAt(s, actions, j, session.value, host))
      && Membership(ctx.actor.value, ctx.workspace) in n.directory.roles
      && ctx.role == n.directory.roles[Membership(ctx.actor.value, ctx.workspace)]
      && ctx.workspace in n.directory.states && n.directory.states[ctx.workspace].Active?
      && n.store.sessions[session.value].revoked.None? && now < n.store.sessions[session.value].expires
  {
    var n := Run(s, actions);
    ContextFacts(n.store, n.directory, secret, host, now);
    var i := SessionOrigin(s, actions, n.store.secrets[secret].session);
    var j, k := SecretIsEntitled(s, actions, secret);
  }

  lemma ContextFacts(store: Store, directory: Directory, secret: Secret, host: Host, now: int)
    requires ContextFromSession(store, directory, secret, host, now).Ok?
    ensures SessionOf(store, secret, host).Some?
    ensures var ctx := ContextFromSession(store, directory, secret, host, now).value;
      var id := SessionOf(store, secret, host).value;
      && secret in store.secrets && store.secrets[secret] == HostSecret(id, host) && id in store.sessions
      && ctx.actor == Some(store.sessions[id].account)
      && Membership(store.sessions[id].account, ctx.workspace) in directory.roles
      && ctx.role == directory.roles[Membership(store.sessions[id].account, ctx.workspace)]
      && ctx.workspace in directory.states && directory.states[ctx.workspace].Active?
      && store.sessions[id].revoked.None? && now < store.sessions[id].expires
  {
  }
}
