/** First login: an identity resolves to its account, or to a new one while signup is open. */
module Accounts {
  import opened Text
  import opened Uuid
  import opened SettingsSchema

  /** The key of an identity row. */
  datatype Identity = Identity(provider: string, subject: string)

  /** Accounts with their display names, and identities with their accounts. */
  datatype Plane = Plane(accounts: map<Id, string>, identities: map<Identity, Id>)

  datatype Outcome = Account(id: Id) | SignupClosed | Raised

  datatype Effect = Effect(after: Plane, outcome: Outcome)

  /** The account and its identity, in one transaction; a blank name or a taken id raises. */
  function Created(p: Plane, who: Identity, name: string, id: Id): Effect {
    if Strip(name) == "" || id in p.accounts || who in p.identities then Effect(p, Raised)
    else Effect(Plane(p.accounts[id := name], p.identities[who := id]), Account(id))
  }

  /** `resolve_or_create`, undisturbed. */
  function ResolvedOrCreated(p: Plane, who: Identity, name: string, allowSignup: bool, id: Id): Effect {
    if who in p.identities then
      Effect(p, if p.identities[who] in p.accounts then Account(p.identities[who]) else Raised)
    else if p.accounts != map[] && !allowSignup then Effect(p, SignupClosed)
    else Created(p, who, name, id)
  }

  class ControlPlane {
    var accounts: map<Id, string>
    var identities: map<Identity, Id>

    constructor ()
      ensures State() == Plane(map[], map[])
    {
      accounts, identities := map[], map[];
    }

    function State(): Plane
      reads this
    {
      Plane(accounts, identities)
    }

    method ResolveOrCreate(who: Identity, name: string, allowSignup: bool, id: Id) returns (r: Outcome)
      modifies this
      ensures Effect(State(), r) == ResolvedOrCreated(old(State()), who, name, allowSignup, id)
    {
      if who in identities {
        if identities[who] !in accounts {
          return Raised;
        }
        return Account(identities[who]);
      }
      var count := |accounts|;
      if count != 0 && !allowSignup {
        return SignupClosed;
      }
      if Strip(name) == "" || id in accounts {
        return Raised;
      }
      accounts := accounts[id := name];
      identities := identities[who := id];
      return Account(id);
    }
  }
}

/** Logins one after another: who gets an account, with signup open and with signup closed. */
module LoginsInTurn {
  import opened Text
  import opened Uuid
  import opened SettingsSchema
  import opened Accounts

  datatype Login = Login(who: Identity, name: string, id: Id)

  function After(p: Plane, logins: seq<Login>, allowSignup: bool): Plane
    decreases |logins|
  {
    if logins == [] then p
    else
      var last := logins[|logins| - 1];
      ResolvedOrCreated(After(p, logins[..|logins| - 1], allowSignup), last.who, last.name, allowSignup, last.id).after
  }

  /** Names that are not blank, and ids drawn afresh. */
  predicate Fresh(logins: seq<Login>) {
    && (forall l <- logins :: Strip(l.name) != "")
    && (forall i, j :: 0 <= i < j < |logins| ==> logins[i].id != logins[j].id)
  }

  predicate LoggedIn(logins: seq<Login>, who: Identity) { exists l <- logins :: l.who == who }

  /** The first login of an identity. */
  function First(logins: seq<Login>, who: Identity): (k: nat)
    requires LoggedIn(logins, who)
    ensures k < |logins| && logins[k].who == who && forall i :: 0 <= i < k ==> logins[i].who != who
  {
    if logins[0].who == who then 0
    else
      assert forall l <- logins :: l == logins[0] || l in logins[1..];
      1 + First(logins[1..], who)
  }

  /** The login's account, under its id and its name. */
  predicate HasAccount(p: Plane, l: Login) {
    l.who in p.identities && p.identities[l.who] == l.id && l.id in p.accounts && p.accounts[l.id] == l.name
  }

  /** Each identity that logged in has the account of its first login. */
  ghost predicate EachHasItsOwn(p: Plane, logins: seq<Login>) {
    && (forall who :: who in p.identities <==> LoggedIn(logins, who))
    && (forall who | LoggedIn(logins, who) :: HasAccount(p, logins[First(logins, who)]))
  }

  /** There are no accounts but those of identities, and their ids are from the logins. */
  ghost predicate NoOthers(p: Plane, logins: seq<Login>) {
    p.accounts.Keys == p.identities.Values && forall id <- p.accounts :: exists l <- logins :: l.id == id
  }

  lemma FirstStays(earlier: seq<Login>, last: Login, who: Identity)
    ensures LoggedIn(earlier + [last], who) <==> LoggedIn(earlier, who) || who == last.who
    ensures LoggedIn(earlier, who) ==> First(earlier + [last], who) == First(earlier, who)
    ensures !LoggedIn(earlier, who) && who == last.who ==> First(earlier + [last], who) == |earlier|
  {
    var all := earlier + [last];
    assert all[|earlier|] == last && last in all;
    assert forall i | 0 <= i < |earlier| :: all[i] == earlier[i] && earlier[i] in earlier;
    if LoggedIn(earlier, who) {
      var l :| l in earlier && l.who == who;
      assert l in all;
      var a, b := First(earlier, who), First(all, who);
      assert a <= b && b <= a;
    } else if who == last.who {
      assert First(all, who) >= |earlier|;
    }
  }

  lemma IdIsNew(p: Plane, earlier: seq<Login>, last: Login)
    requires NoOthers(p, earlier) && Fresh(earlier + [last])
    ensures last.id !in p.accounts && Strip(last.name) != ""
  {
    var all := earlier + [last];
    assert all[|earlier|] == last && last in all;
    assert forall i | 0 <= i < |earlier| :: all[i] == earlier[i] && all[i].id != all[|earlier|].id;
    assert forall l <- earlier :: l.id != last.id;
  }

  /** One login more, with signup open. */
  lemma OpenStep(p: Plane, earlier: seq<Login>, last: Login)
    requires EachHasItsOwn(p, earlier) && last.id !in p.accounts && Strip(last.name) != ""
    requires p.accounts.Keys == p.identities.Values
    ensures EachHasItsOwn(ResolvedOrCreated(p, last.who, last.name, true, last.id).after, earlier + [last])
  {
    var all, q := earlier + [last], ResolvedOrCreated(p, last.who, last.name, true, last.id).after;
    forall who ensures who in q.identities <==> LoggedIn(all, who) { FirstStays(earlier, last, who); }
    forall who | LoggedIn(all, who) ensures HasAccount(q, all[First(all, who)]) {
      FirstStays(earlier, last, who);
      if LoggedIn(earlier, who) {
        assert HasAccount(p, earlier[First(earlier, who)]);
      }
    }
  }

  lemma OpenStepAddsNoOthers(p: Plane, earlier: seq<Login>, last: Login)
    requires NoOthers(p, earlier) && last.id !in p.accounts
    ensures NoOthers(ResolvedOrCreated(p, last.who, last.name, true, last.id).after, earlier + [last])
  {
    var all, q := earlier + [last], ResolvedOrCreated(p, last.who, last.name, true, last.id).after;
    assert all[|earlier|] == last && last in all && forall l <- earlier :: l in all;
    NewAccountIsOwned(p, last);
    forall id | id in q.accounts ensures exists l <- all :: l.id == id {
      if id in p.accounts {
        var l :| l in earlier && l.id == id;
        assert l in all;
      }
    }
  }

  lemma NewAccountIsOwned(p: Plane, last: Login)
    requires p.accounts.Keys == p.identities.Values && last.id !in p.accounts
    ensures var q := ResolvedOrCreated(p, last.who, last.name, true, last.id).after;
      q.accounts.Keys == q.identities.Values
  {
    var q := ResolvedOrCreated(p, last.who, last.name, true, last.id).after;
    if q != p {
      assert q.identities[last.who] == last.id;
      forall id ensures id in q.identities.Values <==> id in p.identities.Values || id == last.id {
        if id in p.identities.Values {
          var who :| who in p.identities && p.identities[who] == id;
          assert q.identities[who] == id;
        }
      }
    }
  }

  /**
   * From an empty control plane with signup open, every identity that logs in gets one account, under
   * the id and the name of its first login, and there are no others.
   */
  lemma {:induction false} OpenSignupAdmitsAll(logins: seq<Login>)
    requires Fresh(logins)
    ensures var p := After(Plane(map[], map[]), logins, true); EachHasItsOwn(p, logins) && NoOthers(p, logins)
    decreases |logins|
  {
    if logins != [] {
      var earlier, last := logins[..|logins| - 1], logins[|logins| - 1];
      assert logins == earlier + [last] && forall l <- earlier :: l in logins;
      OpenSignupAdmitsAll(earlier);
      var p := After(Plane(map[], map[]), earlier, true);
      IdIsNew(p, earlier, last);
      OpenStep(p, earlier, last);
      OpenStepAddsNoOthers(p, earlier, last);
    }
  }

  /** With signup closed only the very first login gets one. */
  lemma {:induction false} ClosedSignupAdmitsOne(logins: seq<Login>)
    requires Fresh(logins) && logins != []
    ensures After(Plane(map[], map[]), logins, false)
         == Plane(map[logins[0].id := logins[0].name], map[logins[0].who := logins[0].id])
    decreases |logins|
  {
    var earlier := logins[..|logins| - 1];
    assert logins[0] in logins && forall l <- earlier :: l in logins;
    if |logins| == 1 { assert earlier == []; } else { ClosedSignupAdmitsOne(earlier); }
  }
}

/** Any number of logins at once: each read, the lock and the commit are steps of their own. */
module AccountRuns {
  import opened Text
  import opened Uuid
  import opened Accounts

  /** Where a login is. From `Rechecking` on it holds the lock, until it is done. */
  datatype Pc =
    | Reading
    | Waiting
    | Rechecking
    | Counting
    | Deciding(count: nat)
    | Inserting
    | Finished(outcome: Outcome)

  datatype Login = Login(who: Identity, name: string, pc: Pc)

  datatype System = System(plane: Plane, allowSignup: bool, lock: Option<nat>, logins: map<nat, Login>)

  datatype Action =
    | Begin(login: nat, who: Identity, name: string)
    | Step(login: nat, id: Id)
    | Crash(login: nat)
    | SetAllowSignup(allow: bool)

  function Move(s: System, login: nat, pc: Pc): System
    requires login in s.logins
  {
    s.(logins := s.logins[login := s.logins[login].(pc := pc)])
  }

  /** The transaction ends, which releases the lock. */
  function End(s: System, login: nat, outcome: Outcome): System
    requires login in s.logins
  {
    Move(s, login, Finished(outcome)).(lock := None)
  }

  function Known(p: Plane, who: Identity): Outcome
    requires who in p.identities
  {
    if p.identities[who] in p.accounts then Account(p.identities[who]) else Raised
  }

  /** One statement of a login; `id` is the fresh account id. */
  function Stepped(s: System, login: nat, id: Id): System
    requires login in s.logins
  {
    var l := s.logins[login];
    match l.pc
    case Reading =>
      if l.who in s.plane.identities then Move(s, login, Finished(Known(s.plane, l.who))) else Move(s, login, Waiting)
    case Waiting => if s.lock.Some? then s else Move(s, login, Rechecking).(lock := Some(login))
    case Rechecking =>
      if l.who in s.plane.identities then End(s, login, Known(s.plane, l.who)) else Move(s, login, Counting)
    case Counting => Move(s, login, Deciding(|s.plane.accounts|))
    case Deciding(count) =>
      if count == 0 || s.allowSignup then Move(s, login, Inserting) else End(s, login, SignupClosed)
    case Inserting =>
      var e := Created(s.plane, l.who, l.name, id);
      End(s.(plane := e.after), login, e.outcome)
    case Finished(_) => s
  }

  function Next(s: System, a: Action): System {
    match a
    case Begin(login, who, name) =>
      if login in s.logins then s else s.(logins := s.logins[login := Login(who, name, Reading)])
    case Step(login, id) => if login in s.logins then Stepped(s, login, id) else s
    case Crash(login) =>
      s.(logins := s.logins - {login}, lock := if s.lock == Some(login) then None else s.lock)
    case SetAllowSignup(allow) => s.(allowSignup := allow)
  }

  function Run(s: System, actions: seq<Action>): System
    decreases |actions|
  {
    if actions == [] then s else Next(Run(s, actions[..|actions| - 1]), actions[|actions| - 1])
  }

  predicate Init(s: System) {
    s.plane == Plane(map[], map[]) && s.lock.None? && s.logins == map[]
  }

  // ---- the invariant ----

  predicate Holds(pc: Pc) { pc.Rechecking? || pc.Counting? || pc.Deciding? || pc.Inserting? }

  /** What a login has seen is still true: nobody else writes while it holds the lock. */
  predicate LoginOk(s: System, login: nat)
    requires login in s.logins
  {
    var l := s.logins[login];
    && (Holds(l.pc) ==> s.lock == Some(login))
    && (l.pc.Counting? || l.pc.Deciding? || l.pc.Inserting? ==> l.who !in s.plane.identities)
    && (l.pc.Deciding? ==> l.pc.count == |s.plane.accounts|)
    && (l.pc.Finished? && l.pc.outcome.Account? ==>
          l.who in s.plane.identities && s.plane.identities[l.who] == l.pc.outcome.id)
  }

  /** Identities and accounts belong together, one for one. */
  predicate PlaneOk(p: Plane) {
    && (forall who <- p.identities :: p.identities[who] in p.accounts)
    && (forall id <- p.accounts :: exists who <- p.identities :: p.identities[who] == id)
    && (forall a, b :: a in p.identities && b in p.identities && p.identities[a] == p.identities[b] ==> a == b)
  }

  predicate Inv(s: System) {
    PlaneOk(s.plane) && forall login <- s.logins :: LoginOk(s, login)
  }

  lemma CreatedKeepsPlane(p: Plane, who: Identity, name: string, id: Id)
    requires PlaneOk(p)
    ensures PlaneOk(Created(p, who, name, id).after)
  {
    var q := Created(p, who, name, id).after;
    if q != p {
      forall other | other in q.accounts ensures exists w <- q.identities :: q.identities[w] == other {
        if other == id {
          assert q.identities[who] == id;
        } else {
          var w :| w in p.identities && p.identities[w] == other;
          assert q.identities[w] == other;
        }
      }
    }
  }

  lemma OwnStepKeepsLogin(s: System, login: nat, id: Id)
    requires login in s.logins && LoginOk(s, login)
    ensures LoginOk(Stepped(s, login, id), login)
  {
  }

  /** A login that holds the lock is not disturbed, and an account once found stays found. */
  lemma OtherStepKeepsLogin(s: System, mover: nat, login: nat, id: Id)
    requires mover in s.logins && login in s.logins && mover != login && LoginOk(s, mover) && LoginOk(s, login)
    ensures LoginOk(Stepped(s, mover, id), login)
  {
  }

  lemma NextKeepsLogin(s: System, a: Action, login: nat)
    requires Inv(s) && login in Next(s, a).logins
    ensures LoginOk(Next(s, a), login)
  {
    if login in s.logins {
      assert LoginOk(s, login);
      if a.Step? && a.login in s.logins {
        if a.login == login {
          OwnStepKeepsLogin(s, login, a.id);
        } else {
          assert LoginOk(s, a.login);
          OtherStepKeepsLogin(s, a.login, login, a.id);
        }
      }
    }
  }

  lemma NextKeepsInv(s: System, a: Action)
    requires Inv(s)
    ensures Inv(Next(s, a))
  {
    if a.Step? && a.login in s.logins {
      CreatedKeepsPlane(s.plane, s.logins[a.login].who, s.logins[a.login].name, a.id);
    }
    forall login | login in Next(s, a).logins ensures LoginOk(Next(s, a), login) { NextKeepsLogin(s, a, login); }
  }

  lemma {:induction false} RunKeepsInv(s: System, actions: seq<Action>)
    requires Inv(s)
    ensures Inv(Run(s, actions))
    decreases |actions|
  {
    if actions != [] {
      RunKeepsInv(s, actions[..|actions| - 1]);
      NextKeepsInv(Run(s, actions[..|actions| - 1]), actions[|actions| - 1]);
    }
  }

  // ---- the theorems ----

  /**
   * In any interleaving of logins, with signup opened and closed at will, all logins of one identity
   * that succeed get the same account, and no two identities share one.
   */
  lemma OneAccountPerIdentity(s: System, actions: seq<Action>, a: nat, b: nat)
    requires Init(s)
    requires var n := Run(s, actions);
      a in n.logins && b in n.logins && n.logins[a].pc.Finished? && n.logins[b].pc.Finished?
      && n.logins[a].pc.outcome.Account? && n.logins[b].pc.outcome.Account?
    ensures var n := Run(s, actions);
      n.logins[a].who == n.logins[b].who <==> n.logins[a].pc.outcome.id == n.logins[b].pc.outcome.id
  {
    RunKeepsInv(s, actions);
    assert LoginOk(Run(s, actions), a) && LoginOk(Run(s, actions), b);
  }

  predicate Closed(s: System) {
    !s.allowSignup && |s.plane.accounts| <= 1
    && forall login <- s.logins :: s.logins[login].pc.Inserting? ==> s.plane.accounts == map[]
  }

  lemma NextKeepsClosed(s: System, a: Action)
    requires Inv(s) && Closed(s) && a != SetAllowSignup(true)
    ensures Closed(Next(s, a))
  {
  }

  lemma {:induction false} RunKeepsClosed(s: System, actions: seq<Action>)
    requires Inv(s) && Closed(s) && forall a <- actions :: a != SetAllowSignup(true)
    ensures Closed(Run(s, actions))
    decreases |actions|
  {
    if actions != [] {
      var earlier, last := actions[..|actions| - 1], actions[|actions| - 1];
      assert last in actions && forall a <- earlier :: a in actions;
      RunKeepsClosed(s, earlier);
      RunKeepsInv(s, earlier);
      NextKeepsClosed(Run(s, earlier), last);
    }
  }

  /** From an empty control plane with signup closed, no interleaving creates a second account. */
  lemma AtMostOneFirstAccount(s: System, actions: seq<Action>)
    requires Init(s) && !s.allowSignup && forall a <- actions :: a != SetAllowSignup(true)
    ensures |Run(s, actions).plane.accounts| <= 1
  {
    RunKeepsClosed(s, actions);
  }

  /** Signup has been open throughout, or it is closed and there is an account. */
  predicate RefusalsAreReal(s: System, everClosed: bool) {
    forall login <- s.logins :: s.logins[login].pc == Finished(SignupClosed) ==> everClosed && s.plane.accounts != map[]
  }

  lemma NextRefusalsAreReal(s: System, a: Action, everClosed: bool)
    requires Inv(s) && RefusalsAreReal(s, everClosed) && (!s.allowSignup ==> everClosed)
    ensures RefusalsAreReal(Next(s, a), everClosed)
  {
  }

  /**
   * In any interleaving a login is turned away only if signup was closed at some moment and an account
   * exists; while it stays open nobody is.
   */
  lemma {:induction false} SignupClosedIsReal(s: System, actions: seq<Action>)
    requires Init(s)
    ensures var n := Run(s, actions);
      var everClosed := !s.allowSignup || SetAllowSignup(false) in actions;
      && RefusalsAreReal(n, everClosed) && (!n.allowSignup ==> everClosed)
    decreases |actions|
  {
    if actions != [] {
      var earlier, last := actions[..|actions| - 1], actions[|actions| - 1];
      assert last in actions && forall a <- earlier :: a in actions;
      assert forall a <- actions :: a == last || a in earlier;
      SignupClosedIsReal(s, earlier);
      RunKeepsInv(s, earlier);
      var everClosed := !s.allowSignup || SetAllowSignup(false) in actions;
      NextRefusalsAreReal(Run(s, earlier), last, everClosed);
    }
  }

  /** One login alone, for a number of statements. */
  function Alone(s: System, login: nat, id: Id, steps: nat): System
    requires login in s.logins
    decreases steps
  {
    if steps == 0 then s else Alone(Stepped(s, login, id), login, id, steps - 1)
  }

  lemma {:induction false} FinishedStays(s: System, login: nat, id: Id, steps: nat)
    requires login in s.logins && s.logins[login].pc.Finished?
    ensures Alone(s, login, id, steps) == s
  {
    if steps > 0 { FinishedStays(s, login, id, steps - 1); }
  }

  /** How many statements a login still has to go, at most. */
  function ToGo(pc: Pc): nat {
    match pc
    case Reading => 6
    case Waiting => 5
    case Rechecking => 4
    case Counting => 3
    case Deciding(_) => 2
    case Inserting => 1
    case Finished(_) => 0
  }

  /** A login under way has the lock exactly while it should, and has seen what is there. */
  predicate OnItsWay(s: System, login: nat)
    requires login in s.logins
  {
    var l := s.logins[login];
    && LoginOk(s, login) && !l.pc.Finished? && (!Holds(l.pc) ==> s.lock.None?)
    && (l.pc.Waiting? ==> l.who !in s.plane.identities)
    && (l.pc.Inserting? ==> s.plane.accounts == map[] || s.allowSignup)
  }

  predicate EndsAs(n: System, login: nat, e: Effect) {
    n.plane == e.after && login in n.logins && n.logins[login].pc == Finished(e.outcome) && n.lock.None?
  }

  function Expected(s: System, login: nat, id: Id): Effect
    requires login in s.logins
  {
    ResolvedOrCreated(s.plane, s.logins[login].who, s.logins[login].name, s.allowSignup, id)
  }

  lemma StepOnItsWay(s: System, login: nat, id: Id)
    requires login in s.logins && OnItsWay(s, login)
    ensures var t := Stepped(s, login, id);
      if t.logins[login].pc.Finished? then EndsAs(t, login, Expected(s, login, id))
      else
        && OnItsWay(t, login) && ToGo(t.logins[login].pc) < ToGo(s.logins[login].pc)
        && Expected(t, login, id) == Expected(s, login, id)
  {
  }

  /** A login that nothing disturbs is the sequential program. */
  lemma {:induction false} UndisturbedLogin(s: System, login: nat, id: Id, steps: nat)
    requires login in s.logins && OnItsWay(s, login) && steps >= ToGo(s.logins[login].pc)
    ensures EndsAs(Alone(s, login, id, steps), login, Expected(s, login, id))
    decreases steps
  {
    var t := Stepped(s, login, id);
    StepOnItsWay(s, login, id);
    if t.logins[login].pc.Finished? {
      FinishedStays(t, login, id, steps - 1);
    } else {
      UndisturbedLogin(t, login, id, steps - 1);
    }
  }
}
