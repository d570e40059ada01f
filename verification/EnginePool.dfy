/** Recency orders over any keys: what a least-recently-used cache holds, and in which order. */
module LruOrder {

  predicate Distinct<K(==,!new)>(names: seq<K>) {
    forall i, j :: 0 <= i < j < |names| ==> names[i] != names[j]
  }

  function IndexOf<K(==,!new)>(names: seq<K>, name: K): (i: int)
    ensures -1 <= i < |names|
    ensures i >= 0 ==> names[i] == name
    ensures i < 0 ==> name !in names
  {
    if names == [] then -1
    else if names[|names| - 1] == name then |names| - 1
    else IndexOf(names[..|names| - 1], name)
  }

  /** The key order without `name`. */
  function Without<K(==,!new)>(names: seq<K>, name: K): seq<K> {
    var i := IndexOf(names, name);
    if i < 0 then names else RemoveAt(names, i)
  }

  function RemoveAt<K(==,!new)>(names: seq<K>, i: nat): seq<K>
    requires i < |names|
  {
    names[..i] + names[i + 1..]
  }

  /** The last `n` elements. */
  function Suffix<K(==,!new)>(names: seq<K>, n: nat): seq<K> {
    if |names| <= n then names else names[|names| - n..]
  }

  /** The order after `name` is used: it becomes the most recent, and the oldest give way. */
  function Touch<K(==,!new)>(order: seq<K>, name: K, capacity: nat): seq<K> {
    Suffix(Without(order, name) + [name], capacity)
  }

  lemma TailMembers<K(!new)>(names: seq<K>)
    requires Distinct(names) && names != []
    ensures Distinct(names[1..]) && forall n :: n in names[1..] <==> n in names && n != names[0]
  {
  }

  lemma TouchPresent<K(!new)>(order: seq<K>, name: K, capacity: nat)
    requires Distinct(order) && name in order && |order| <= capacity
    ensures var r := Touch(order, name, capacity);
      && r == Without(order, name) + [name]
      && Distinct(r) && |r| == |order| && forall n :: n in r <==> n in order
  {
  }

  lemma TouchAbsent<K(!new)>(order: seq<K>, name: K, capacity: nat)
    requires name !in order && |order| <= capacity && capacity >= 1
    ensures Touch(order, name, capacity) ==
      if |order| < capacity then order + [name] else (order + [name])[1..]
  {
  }

  /** The position of the last call for `name`, -1 when there was none. */
  function LastUse<K(==,!new)>(calls: seq<K>, name: K): (i: int)
    ensures -1 <= i < |calls|
  {
    if calls == [] then -1
    else if calls[|calls| - 1] == name then |calls| - 1
    else LastUse(calls[..|calls| - 1], name)
  }

  lemma {:induction false} LastUseIsLast<K(!new)>(calls: seq<K>, name: K)
    ensures var i := LastUse(calls, name);
      (i < 0 <==> name !in calls) && (i >= 0 ==> calls[i] == name) && forall k :: i < k < |calls| ==> calls[k] != name
  {
    if calls != [] && calls[|calls| - 1] != name {
      LastUseIsLast(calls[..|calls| - 1], name);
      assert forall k :: 0 <= k < |calls| - 1 ==> calls[..|calls| - 1][k] == calls[k];
      assert name in calls ==> name in calls[..|calls| - 1];
    }
  }

  /** A listing of the keys used, each once, in order of last use. */
  ghost predicate IsRecency<K(!new)>(calls: seq<K>, names: seq<K>) {
    && (forall n <- names :: n in calls) && (forall n <- calls :: n in names)
    && (forall i, j :: 0 <= i < j < |names| ==> LastUse(calls, names[i]) < LastUse(calls, names[j]))
  }

  /** The order of a cache without bound. */
  function Recency<K(==,!new)>(calls: seq<K>): seq<K> {
    if calls == [] then []
    else Without(Recency(calls[..|calls| - 1]), calls[|calls| - 1]) + [calls[|calls| - 1]]
  }

  /** The order of a cache of the given capacity after a run of uses. */
  function OrderAfter<K(==,!new)>(calls: seq<K>, capacity: nat): seq<K> {
    if calls == [] then [] else Touch(OrderAfter(calls[..|calls| - 1], capacity), calls[|calls| - 1], capacity)
  }

  lemma {:induction false} RecencyIsRecency<K(!new)>(calls: seq<K>)
    ensures IsRecency(calls, Recency(calls))
  {
    if calls != [] {
      var earlier, name := calls[..|calls| - 1], calls[|calls| - 1];
      assert calls == earlier + [name];
      RecencyIsRecency(earlier);
      RecencyStep(earlier, Recency(earlier), name);
    }
  }

  lemma RecencyStep<K(!new)>(calls: seq<K>, names: seq<K>, name: K)
    requires IsRecency(calls, names)
    ensures IsRecency(calls + [name], Without(names, name) + [name])
  {
  }

  lemma IndexInTail<K(!new)>(head: seq<K>, tail: seq<K>, name: K)
    requires Distinct(head + tail)
    ensures Distinct(head) && Distinct(tail)
    ensures IndexOf(head + tail, name) ==
      if name in tail then |head| + IndexOf(tail, name) else IndexOf(head, name)
  {
    var all := head + tail;
    assert forall k :: 0 <= k < |head| ==> all[k] == head[k];
    assert forall k :: 0 <= k < |tail| ==> all[|head| + k] == tail[k];
  }

  lemma SuffixOfConcat<K(!new)>(head: seq<K>, body: seq<K>, n: nat)
    requires |body| >= n
    ensures Suffix(head + body, n) == Suffix(body, n)
  {
  }

  /** Forgetting the oldest names first does not change what a later use leaves. */
  lemma TouchOfSuffix<K(!new)>(names: seq<K>, name: K, n: nat)
    requires Distinct(names)
    ensures Touch(Suffix(names, n), name, n) == Touch(names, name, n)
  {
    if |names| > n {
      var head, tail := names[..|names| - n], names[|names| - n..];
      assert names == head + tail;
      IndexInTail(head, tail, name);
      if name in tail {
        WithoutInTail(head, tail, name);
        SuffixOfConcat(head, Without(tail, name) + [name], n);
      } else {
        WithoutInHead(head, tail, name);
        SuffixOfConcat(Without(head, name), tail + [name], n);
      }
    }
  }

  lemma RemoveInTail<K(!new)>(head: seq<K>, tail: seq<K>, i: nat)
    requires i < |tail|
    ensures RemoveAt(head + tail, |head| + i) == head + RemoveAt(tail, i)
  {
  }

  lemma WithoutInTail<K(!new)>(head: seq<K>, tail: seq<K>, name: K)
    requires name in tail && IndexOf(head + tail, name) == |head| + IndexOf(tail, name)
    ensures Without(head + tail, name) + [name] == head + (Without(tail, name) + [name])
  {
    var i := IndexOf(tail, name);
    RemoveInTail(head, tail, i);
    ConcatAssociates(head, RemoveAt(tail, i), [name]);
  }

  lemma WithoutInHead<K(!new)>(head: seq<K>, tail: seq<K>, name: K)
    requires name !in tail && IndexOf(head + tail, name) == IndexOf(head, name)
    ensures Without(head + tail, name) + [name] == Without(head, name) + (tail + [name])
    ensures Without(tail, name) == tail
  {
    var i := IndexOf(head, name);
    if i >= 0 {
      assert (head + tail)[..i] == head[..i];
      assert (head + tail)[i + 1..] == head[i + 1..] + tail;
      ConcatAssociates(head[..i], head[i + 1..], tail);
    }
    ConcatAssociates(Without(head, name), tail, [name]);
  }

  lemma ConcatAssociates<K(!new)>(a: seq<K>, b: seq<K>, c: seq<K>)
    ensures (a + b) + c == a + (b + c)
  {
  }

  /**
   * After any run of uses the cache holds the `capacity` most recently used distinct keys, in order of
   * last use: evicting one at a time keeps just the tail of the whole history's order.
   */
  lemma {:induction false} HoldsMostRecent<K(!new)>(calls: seq<K>, capacity: nat)
    requires capacity >= 1
    ensures OrderAfter(calls, capacity) == Suffix(Recency(calls), capacity)
    ensures IsRecency(calls, Recency(calls))
  {
    RecencyIsRecency(calls);
    if calls != [] {
      var earlier, name := calls[..|calls| - 1], calls[|calls| - 1];
      HoldsMostRecent(earlier, capacity);
      assert Distinct(Recency(earlier));
      TouchOfSuffix(Recency(earlier), name, capacity);
    }
  }
}

/** The engine pool: one engine for each database name, least recently used first out. */
module EnginePool {
  import opened Text
  import opened LruOrder
  import opened Uuid
  import opened WorkspaceTables

  /** A database name that passed `check_database_name`. */
  datatype Name = Name(text: string)

  class Engine {
    const database: Name
    var disposals: nat

    constructor (database: Name)
      ensures this.database == database && disposals == 0
    {
      this.database := database;
      disposals := 0;
    }

    method Dispose()
      modifies this
      ensures disposals == old(disposals) + 1
    {
      disposals := disposals + 1;
    }
  }

  predicate IsNameChar(c: char) { 'a' <= c <= 'z' || '0' <= c <= '9' || c == '_' }

  /** `[a-z_][a-z0-9_]{0,62}` */
  predicate IsDatabaseName(s: string) {
    1 <= |s| <= 63 && !('0' <= s[0] <= '9') && forall c <- s :: IsNameChar(c)
  }

  /** Every workspace's database has such a name. */
  lemma WorkspaceNamesAreValid(id: Id)
    ensures IsDatabaseName(DatabaseNameFor(id).text)
  {
    var text := DatabaseNameFor(id).text;
    assert text == PREFIX + Hex(id, 32) && text[0] == PREFIX[0];
    forall c | c in text ensures IsNameChar(c) { assert c in PREFIX || c in Hex(id, 32); }
  }

  class Pool {
    const cacheSize: nat
    // The ordered dictionary: its key order, least recent first, and its entries.
    var order: seq<Name>
    var engines: map<Name, Engine>
    ghost var created: set<Engine>

    predicate Cached(e: Engine)
      reads this
    {
      e.database in engines && engines[e.database] == e
    }

    /** Every engine ever created is cached and live, or was disposed exactly once. */
    ghost predicate Valid()
      reads this, created
    {
      && cacheSize >= 1
      && Distinct(order) && |order| <= cacheSize
      && (forall n :: n in order <==> n in engines)
      && (forall n <- engines :: engines[n] in created && engines[n].database == n)
      && (forall e <- created :: e.disposals == if Cached(e) then 0 else 1)
    }

    /** The source raises when a size is not positive; `Pool.CreatePool` is the checked way in. */
    constructor (cacheSize: nat)
      requires cacheSize >= 1
      ensures Valid() && this.cacheSize == cacheSize
      ensures order == [] && created == {}
    {
      this.cacheSize := cacheSize;
      order, engines, created := [], map[], {};
    }

    static method CreatePool(cacheSize: int, poolSize: int) returns (r: Result<Pool, string>)
      ensures r.Ok? <==> cacheSize >= 1 && poolSize >= 1
      ensures r.Ok? ==> fresh(r.value) && r.value.Valid() && r.value.order == [] && r.value.cacheSize == cacheSize
    {
      if cacheSize < 1 || poolSize < 1 {
        return Err("cache_size and pool_size must be positive");
      }
      var pool := new Pool(cacheSize);
      return Ok(pool);
    }

    method EngineFor(databaseName: string) returns (r: Result<Engine, string>)
      requires Valid()
      modifies this, created
      ensures Valid()
      ensures r.Ok? <==> IsDatabaseName(databaseName)
      ensures r.Err? ==> order == old(order) && engines == old(engines) && created == old(created)
      ensures r.Ok? ==> order == Touch(old(order), Name(databaseName), cacheSize)
      ensures r.Ok? ==> Name(databaseName) in engines && engines[Name(databaseName)] == r.value
      ensures r.Ok? ==> r.value.database == Name(databaseName)
      ensures r.Ok? && Name(databaseName) in old(engines) ==>
        r.value == old(engines)[Name(databaseName)] && created == old(created)
      ensures r.Ok? && Name(databaseName) !in old(engines) ==> fresh(r.value) && created == old(created) + {r.value}
      ensures forall n <- engines :: n.text != databaseName ==> n in old(engines) && engines[n] == old(engines)[n]
    {
      if !IsDatabaseName(databaseName) {
        return Err("database names are lowercase identifiers of at most 63 chars");
      }
      var name := Name(databaseName);
      if name in engines {
        MoveToEnd(name);
        return Ok(engines[name]);
      }
      var engine := Create(name);
      return Ok(engine);
    }

    method MoveToEnd(name: Name)
      requires Valid() && name in engines
      modifies this`order
      ensures Valid() && order == Touch(old(order), name, cacheSize)
    {
      TouchPresent(order, name, cacheSize);
      order := Without(order, name) + [name];
    }

    method Insert(name: Name) returns (engine: Engine)
      requires Valid() && name !in engines
      modifies this`order, this`engines, this`created
      ensures fresh(engine) && engine.database == name && created == old(created) + {engine}
      ensures order == old(order) + [name] && engines == old(engines)[name := engine]
      ensures Consistent()
    {
      engine := new Engine(name);
      order, engines := order + [name], engines[name := engine];
      created := created + {engine};
    }

    /** `Valid` between inserting an entry and fitting the pool to its size. */
    ghost predicate Consistent()
      reads this, created
    {
      && cacheSize >= 1
      && Distinct(order)
      && (forall n :: n in order <==> n in engines)
      && (forall n <- engines :: engines[n] in created && engines[n].database == n)
      && (forall e <- created :: e.disposals == if Cached(e) then 0 else 1)
    }

    /** The miss path: a new engine goes in, and the least recent entries go out until the pool fits. */
    method Create(name: Name) returns (engine: Engine)
      requires Valid() && name !in engines
      modifies this`order, this`engines, this`created, created
      ensures Valid() && order == Touch(old(order), name, cacheSize)
      ensures fresh(engine) && created == old(created) + {engine} && name in engines && engines[name] == engine
      ensures forall n <- engines :: n != name ==> n in old(engines) && engines[n] == old(engines)[n]
    {
      TouchAbsent(order, name, cacheSize);
      engine := Insert(name);
      if |order| > cacheSize {
        assert order[0] != name;
        EvictOldest();
      }
    }

    method EvictOldest()
      requires Consistent() && |order| == cacheSize + 1
      modifies this`order, this`engines, created
      ensures Valid() && order == old(order)[1..] && engines == old(engines) - {old(order)[0]}
    {
      TailMembers(order);
      assert order[0] in engines;
      ghost var stale := engines[order[0]];
      var evicted := PopExcess();
      assert forall e <- created :: e.disposals == if e == stale then 0 else if Cached(e) then 0 else 1;
      DisposeEvicted(evicted);
      assert !Cached(stale);
    }

    method PopExcess() returns (evicted: seq<Engine>)
      requires |order| == cacheSize + 1 && order[0] in engines
      modifies this`order, this`engines
      ensures order == old(order)[1..] && engines == old(engines) - {old(order)[0]}
      ensures evicted == [old(engines)[old(order)[0]]]
    {
      evicted := [];
      while |order| > cacheSize
        invariant evicted == [] ==> order == old(order) && engines == old(engines)
        invariant evicted != [] ==> order == old(order)[1..] && engines == old(engines) - {old(order)[0]}
        invariant evicted != [] ==> evicted == [old(engines)[old(order)[0]]]
      {
        evicted := evicted + [engines[order[0]]];
        order, engines := order[1..], engines - {order[0]};
      }
    }

    method DisposeEvicted(evicted: seq<Engine>)
      requires |evicted| == 1
      modifies evicted[0]
      ensures evicted[0].disposals == old(evicted[0].disposals) + 1
    {
      for i := 0 to |evicted|
        invariant evicted[0].disposals == old(evicted[0].disposals) + i
      {
        evicted[i].Dispose();
      }
    }

    /** The names that hold an engine now, each once, least recent first. */
    method CachedNames() returns (names: seq<Name>)
      requires Valid()
      ensures Distinct(names) && |names| <= cacheSize && forall n :: n in names <==> n in engines
      ensures forall i | 0 <= i < |names| :: engines[names[i]].database == names[i] && engines[names[i]].disposals == 0
      ensures names == order
    {
      return order;
    }

    method DisposeAll()
      requires Valid()
      modifies this, created
      ensures Valid() && order == [] && created == old(created)
      ensures forall e <- created :: e.disposals == 1
    {
      var names := order;
      ghost var held := engines;
      var stale := engines;
      order, engines := [], map[];
      for i := 0 to |names|
        invariant order == [] && engines == map[] && created == old(created)
        invariant forall e <- created ::
          e.disposals == if e.database in held && held[e.database] == e && e.database !in names[..i] then 0 else 1
      {
        assert names[i] in names && names[i] !in names[..i];
        stale[names[i]].Dispose();
        assert names[..i + 1] == names[..i] + [names[i]];
      }
      assert names[..|names|] == names;
    }
  }

  /** The calls that reach the pool: a call with a bad name raises and changes nothing. */
  function ValidCalls(calls: seq<Name>): seq<Name> {
    if calls == [] then []
    else if IsDatabaseName(calls[|calls| - 1].text) then ValidCalls(calls[..|calls| - 1]) + [calls[|calls| - 1]]
    else ValidCalls(calls[..|calls| - 1])
  }

  /** The pool's order after a run of calls, one `EngineFor` at a time. */
  function PoolAfter(calls: seq<Name>, capacity: nat): seq<Name> {
    if calls == [] then []
    else
      var before, name := PoolAfter(calls[..|calls| - 1], capacity), calls[|calls| - 1];
      if IsDatabaseName(name.text) then Touch(before, name, capacity) else before
  }

  /** The pool holds exactly the most recently used distinct valid names, least recent first. */
  lemma PoolHoldsMostRecent(calls: seq<Name>, capacity: nat)
    requires capacity >= 1
    ensures PoolAfter(calls, capacity) == Suffix(Recency(ValidCalls(calls)), capacity)
    ensures IsRecency(ValidCalls(calls), Recency(ValidCalls(calls)))
  {
    PoolFollowsValidCalls(calls, capacity);
    HoldsMostRecent(ValidCalls(calls), capacity);
  }

  lemma {:induction false} PoolFollowsValidCalls(calls: seq<Name>, capacity: nat)
    ensures PoolAfter(calls, capacity) == OrderAfter(ValidCalls(calls), capacity)
  {
    if calls != [] {
      var earlier, name := calls[..|calls| - 1], calls[|calls| - 1];
      PoolFollowsValidCalls(earlier, capacity);
      if IsDatabaseName(name.text) {
        var valid := ValidCalls(earlier) + [name];
        assert valid[..|valid| - 1] == ValidCalls(earlier);
      }
    }
  }

  /**
   * Any calls on a pool, in turn. Afterwards it holds exactly the most recently used distinct valid
   * names, least recent first, and every engine created on the way is cached or was disposed once.
   */
  method CallInTurn(cacheSize: nat, calls: seq<Name>) returns (pool: Pool)
    requires cacheSize >= 1
    ensures fresh(pool) && pool.Valid() && pool.cacheSize == cacheSize
    ensures pool.order == Suffix(Recency(ValidCalls(calls)), cacheSize)
    ensures IsRecency(ValidCalls(calls), Recency(ValidCalls(calls)))
  {
    pool := new Pool(cacheSize);
    for i := 0 to |calls|
      invariant fresh(pool) && fresh(pool.created) && pool.Valid() && pool.cacheSize == cacheSize
      invariant pool.order == PoolAfter(calls[..i], cacheSize)
    {
      assert calls[..i + 1][..i] == calls[..i];
      var engine := pool.EngineFor(calls[i].text);
    }
    assert calls[..|calls|] == calls;
    PoolHoldsMostRecent(calls, cacheSize);
  }
}
