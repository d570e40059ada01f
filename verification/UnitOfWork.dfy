/** One connection, in one transaction, against one workspace database. */
module UnitsOfWork {
  import opened Text
  import opened WorkspaceTables

  /** `transaction` holds the working contents while a transaction is open. */
  datatype Unit<+C> = Unit(connected: bool, transaction: Option<C>)

  /** `Work` stands for the statements run on the connection; `Enter` says whether the name probe agrees. */
  datatype Action<+C> = Enter(probe: bool) | Work(result: C) | Commit(fails: bool) | Rollback | Exit

  datatype Response = Fine | Closed | Mismatch | DriverError

  /** The unit, what the database has committed (`None`: there is no such database), and the answer. */
  datatype Moment<+C> = Moment(unit: Unit<C>, committed: Option<C>, response: Response)

  function Next<C>(u: Unit<C>, committed: Option<C>, action: Action<C>): Moment<C> {
    match action
    case Enter(probe) =>
      if u.connected then Moment(u, committed, Closed)
      else if committed.None? then Moment(u, committed, DriverError)
      else if !probe then Moment(u, committed, Mismatch)
      else Moment(Unit(true, committed), committed, Fine)
    case Work(result) =>
      if !u.connected || u.transaction.None? then Moment(u, committed, Closed)
      else Moment(u.(transaction := Some(result)), committed, Fine)
    case Commit(fails) =>
      if u.transaction.None? then Moment(u, committed, Closed)
      else if fails then Moment(u.(transaction := None), committed, DriverError)
      else Moment(u.(transaction := None), u.transaction, Fine)
    case Rollback =>
      Moment(u.(transaction := None), committed, if u.transaction.None? then Closed else Fine)
    case Exit => Moment(u.(transaction := None), committed, Fine)
  }

  /** The database server: what every database has committed. */
  class Cluster<C(==)> {
    var databases: map<DatabaseName, C>

    constructor (databases: map<DatabaseName, C>)
      ensures this.databases == databases
    {
      this.databases := databases;
    }

    ghost function Committed(name: DatabaseName): Option<C>
      reads this
    {
      if name in databases then Some(databases[name]) else None
    }
  }

  class UnitOfWork<C(==)> {
    const cluster: Cluster<C>
    const engine: DatabaseName
    const expected: DatabaseName
    const verifyDatabase: bool
    var connected: bool
    var transaction: Option<C>

    /** `engine` is the database that the engine really connects to. */
    constructor (cluster: Cluster<C>, engine: DatabaseName, expected: DatabaseName, verifyDatabase: bool)
      ensures this.cluster == cluster && this.engine == engine
      ensures this.expected == expected && this.verifyDatabase == verifyDatabase
      ensures State() == Unit(false, None)
    {
      this.cluster, this.engine, this.expected, this.verifyDatabase := cluster, engine, expected, verifyDatabase;
      connected, transaction := false, None;
    }

    function State(): Unit<C>
      reads this
    {
      Unit(connected, transaction)
    }

    method Enter() returns (r: Response)
      modifies this
      ensures Moment(State(), cluster.Committed(engine), r)
           == Next(old(State()), old(cluster.Committed(engine)), Action.Enter(!verifyDatabase || engine == expected))
    {
      if connected {
        return Closed;
      }
      if engine !in cluster.databases {
        return DriverError;
      }
      var contents := cluster.databases[engine];
      if verifyDatabase && engine != expected {
        return Mismatch;
      }
      connected, transaction := true, Some(contents);
      return Fine;
    }

    /** What a handler does through `connection`, which refuses when no transaction is open. */
    method Work(result: C) returns (r: Response)
      modifies this
      ensures Moment(State(), cluster.Committed(engine), r)
           == Next(old(State()), old(cluster.Committed(engine)), Action.Work(result))
    {
      if !connected || transaction.None? {
        return Closed;
      }
      transaction := Some(result);
      return Fine;
    }

    method Commit(fails: bool) returns (r: Response)
      modifies this, cluster
      ensures Moment(State(), cluster.Committed(engine), r)
           == Next(old(State()), old(cluster.Committed(engine)), Action.Commit(fails))
      ensures cluster.databases
           == if r.Fine? then old(cluster.databases)[engine := old(transaction).value] else old(cluster.databases)
    {
      if transaction.None? {
        return Closed;
      }
      var result := transaction.value;
      transaction := None;
      if fails {
        return DriverError;
      }
      cluster.databases := cluster.databases[engine := result];
      return Fine;
    }

    method Rollback() returns (r: Response)
      modifies this
      ensures Moment(State(), cluster.Committed(engine), r)
           == Next(old(State()), old(cluster.Committed(engine)), Action.Rollback)
    {
      if transaction.None? {
        return Closed;
      }
      transaction := None;
      return Fine;
    }

    /** Leaving rolls back whatever is still open; the unit stays connected-once for ever. */
    method Exit()
      modifies this
      ensures Moment(State(), cluster.Committed(engine), Fine)
           == Next(old(State()), old(cluster.Committed(engine)), Action.Exit)
    {
      transaction := None;
    }
  }

  /** A unit's life: its state, what is committed, and every contents that a commit made permanent. */
  datatype Life<+C> = Life(unit: Unit<C>, committed: Option<C>, commits: seq<C>, answers: seq<Response>)

  function Lived<C>(u: Unit<C>, committed: Option<C>, actions: seq<Action<C>>): Life<C>
    decreases |actions|
  {
    if actions == [] then Life(u, committed, [], [])
    else
      var before := Lived(u, committed, actions[..|actions| - 1]);
      var action := actions[|actions| - 1];
      var now := Next(before.unit, before.committed, action);
      var made := action.Commit? && now.response.Fine?;
      Life(now.unit, now.committed,
           if made then before.commits + [before.unit.transaction.value] else before.commits,
           before.answers + [now.response])
  }

  predicate LifeOk<C(==)>(start: Option<C>, life: Life<C>) {
    && (life.commits == [] ==> life.committed == start)
    && (life.commits != [] ==>
          && |life.commits| == 1 && life.committed == Some(life.commits[0])
          && life.unit.transaction.None? && life.unit.connected)
    && (life.unit.transaction.Some? ==> life.unit.connected)
  }

  /**
   * Whatever is called on a unit of work, in whatever order and however often, it commits at most one
   * transaction; without a commit the database keeps what it had, and after one nothing more is written.
   */
  lemma {:induction false} CommitsAtMostOnce<C>(committed: Option<C>, actions: seq<Action<C>>)
    ensures LifeOk(committed, Lived(Unit(false, None), committed, actions))
    decreases |actions|
  {
    if actions != [] {
      CommitsAtMostOnce(committed, actions[..|actions| - 1]);
    }
  }

  /** What the statements among the actions leave of the contents they started from. */
  function Worked<C>(start: C, actions: seq<Action<C>>): C
    decreases |actions|
  {
    if actions == [] then start
    else if actions[|actions| - 1].Work? then actions[|actions| - 1].result
    else Worked(start, actions[..|actions| - 1])
  }

  /** The unit was entered at action `e`, and nothing has ended its transaction since. */
  predicate OpenFrom<C>(actions: seq<Action<C>>, e: nat) {
    && e < |actions| && actions[e].Enter? && actions[e].probe
    && forall i | e < i < |actions| :: !actions[i].Commit? && !actions[i].Rollback? && !actions[i].Exit?
  }

  /** An open transaction holds what was there on entering, as the statements since then left it. */
  lemma {:induction false} OpenOrigin<C>(committed: Option<C>, actions: seq<Action<C>>) returns (e: nat)
    requires Lived(Unit(false, None), committed, actions).unit.transaction.Some?
    ensures OpenFrom(actions, e) && committed.Some?
    ensures Lived(Unit(false, None), committed, actions).unit.transaction
         == Some(Worked(committed.value, actions[e + 1..]))
    decreases |actions|
  {
    var earlier, last := actions[..|actions| - 1], actions[|actions| - 1];
    CommitsAtMostOnce(committed, earlier);
    if Lived(Unit(false, None), committed, earlier).unit.transaction.Some? {
      e := OpenOrigin(committed, earlier);
      assert actions[e + 1..][..|actions| - e - 2] == earlier[e + 1..];
    } else {
      e := |actions| - 1;
      assert actions[e + 1..] == [];
    }
  }

  /** The unit was entered at `e` and its transaction committed at `k`, with no end of it in between. */
  predicate CommittedAt<C(==)>(committed: Option<C>, actions: seq<Action<C>>, e: nat, k: nat, c: C) {
    && k < |actions| && actions[k] == Commit(false) && OpenFrom(actions[..k], e)
    && committed.Some? && c == Worked(committed.value, actions[..k][e + 1..])
  }

  /** What is committed is exactly what the statements of the one transaction made; nothing rolled back or left is. */
  lemma {:induction false} CommitOrigin<C>(committed: Option<C>, actions: seq<Action<C>>) returns (e: nat, k: nat)
    requires Lived(Unit(false, None), committed, actions).commits != []
    ensures CommittedAt(committed, actions, e, k, Lived(Unit(false, None), committed, actions).commits[0])
    decreases |actions|
  {
    var earlier := actions[..|actions| - 1];
    CommitsAtMostOnce(committed, earlier);
    if Lived(Unit(false, None), committed, earlier).commits != [] {
      e, k := CommitOrigin(committed, earlier);
      assert earlier[..k] == actions[..k];
      CommitsAtMostOnce(committed, actions);
    } else {
      k := |actions| - 1;
      e := OpenOrigin(committed, earlier);
    }
  }

  /** A unit that is entered, worked on and committed commits that work. */
  lemma {:induction false} WorkIsKept<C>(start: C, work: seq<Action<C>>)
    requires forall a <- work :: a.Work?
    ensures Lived(Unit(false, None), Some(start), [Action.Enter(true)] + work).unit
         == Unit(true, Some(Worked(start, work)))
    ensures Lived(Unit(false, None), Some(start), [Action.Enter(true)] + work + [Action.Commit(false)]).committed
         == Some(Worked(start, work))
    decreases |work|
  {
    var begun := [Action.Enter(true)] + work;
    if work == [] {
      assert begun[..0] == [];
    } else {
      var earlier := work[..|work| - 1];
      assert work[|work| - 1] in work && forall a <- earlier :: a in work;
      assert begun[..|begun| - 1] == [Action.Enter(true)] + earlier;
      WorkIsKept(start, earlier);
    }
    assert (begun + [Action.Commit(false)])[..|begun|] == begun;
  }

  /** Once entered and closed, by a commit, a rollback or leaving, a unit changes nothing ever again. */
  lemma {:induction false} ClosedForEver<C>(u: Unit<C>, committed: Option<C>, actions: seq<Action<C>>)
    requires u.connected && u.transaction.None?
    ensures var life := Lived(u, committed, actions);
      && life.unit == u && life.committed == committed && life.commits == []
      && |life.answers| == |actions|
      && forall i | 0 <= i < |actions| :: life.answers[i] == if actions[i].Exit? then Fine else Closed
    decreases |actions|
  {
    if actions != [] {
      ClosedForEver(u, committed, actions[..|actions| - 1]);
    }
  }
}
