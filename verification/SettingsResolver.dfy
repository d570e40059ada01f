/** Layered resolution: package default, deployment layer, override rows, and the policy floor. */
module SettingsResolver {
  import opened Text
  import opened SettingsSchema

  type Rows = map<string, string>
  type Values = map<string, Value>

  function Smaller(a: int, b: int): int { if a <= b then a else b }

  /** The items of `items` that satisfy membership in `other` (or its absence), in order. */
  function Filter(items: seq<string>, other: seq<string>, keep: bool): (r: seq<string>)
    ensures forall x :: x in r <==> x in items && (x in other <==> keep)
  {
    if items == [] then []
    else (if items[0] in other <==> keep then [items[0]] else []) + Filter(items[1..], other, keep)
  }

  /** `apply_floor` */
  function ApplyFloor(floor: Floor, deployment: Value, override: Value): (r: Value)
    requires MatchesType(FloorType(floor), deployment) && MatchesType(FloorType(floor), override)
  {
    match floor
    case Min => Int(Smaller(deployment.number, override.number))
    case Union => List(deployment.items + Filter(override.items, deployment.items, false))
    case Subset => List(Filter(deployment.items, override.items, true))
    case And => Bool(deployment.flag && override.flag)
  }

  predicate Includes(big: seq<string>, small: seq<string>) { forall x <- small :: x in big }

  /** `is_looser`: whether `candidate` would relax `deployment`. */
  predicate IsLooser(floor: Floor, deployment: Value, candidate: Value)
    requires MatchesType(FloorType(floor), deployment) && MatchesType(FloorType(floor), candidate)
  {
    match floor
    case Min => candidate.number > deployment.number
    case Union => !Includes(candidate.items, deployment.items)
    case Subset => !Includes(deployment.items, candidate.items)
    case And => candidate.flag && !deployment.flag
  }

  /** `a` is at least as tight as `b`: the order that the write-time test defines. */
  predicate NoLooser(floor: Floor, a: Value, b: Value) {
    && MatchesType(FloorType(floor), a) && MatchesType(FloorType(floor), b)
    && !IsLooser(floor, b, a)
  }

  lemma NoLooserIsPreorder(floor: Floor, a: Value, b: Value, c: Value)
    requires MatchesType(FloorType(floor), a)
    ensures NoLooser(floor, a, a)
    ensures NoLooser(floor, a, b) && NoLooser(floor, b, c) ==> NoLooser(floor, a, c)
  {
  }

  /**
   * The read-time combination is the meet of the write-time order: no looser than the deployment value,
   * no looser than the override, and every value tight enough for both is as tight as it.
   */
  lemma FloorIsMeet(floor: Floor, deployment: Value, override: Value, x: Value)
    requires MatchesType(FloorType(floor), deployment) && MatchesType(FloorType(floor), override)
    ensures var meet := ApplyFloor(floor, deployment, override);
      NoLooser(floor, x, meet) <==> NoLooser(floor, x, deployment) && NoLooser(floor, x, override)
    ensures var meet := ApplyFloor(floor, deployment, override);
      && NoLooser(floor, meet, deployment) && NoLooser(floor, meet, override)
      && (floor == Union ==> deployment.items <= meet.items)
  {
  }

  /** The order of a floored list ignores repetition and order; equally tight values are equal as sets. */
  predicate SameUnderFloor(floor: Floor, a: Value, b: Value) {
    NoLooser(floor, a, b) && NoLooser(floor, b, a)
  }

  /** Default, overlaid with the deployment layer. */
  function Base(registry: Registry, deployment: Values): Values {
    map key | key in registry :: if key in deployment then deployment[key] else registry[key].default
  }

  predicate ValidDeployment(registry: Registry, deployment: Values) {
    forall key <- deployment :: key in registry && MatchesType(registry[key].valueType, deployment[key])
  }

  predicate Typed(registry: Registry, values: Values) {
    values.Keys == registry.Keys && forall key <- registry :: MatchesType(registry[key].valueType, values[key])
  }

  /** What one key holds after a pass over rows of one scope, given the key's own row. */
  function Effective(spec: KeySpec, before: Value, row: Option<string>, scope: Scope): (after: Value)
    requires spec.Valid() && MatchesType(spec.valueType, before)
    ensures MatchesType(spec.valueType, after)
  {
    if row.None? || spec.scope != scope then before
    else match DecodeText(spec, row.value)
      case None => before
      case Some(v) => if spec.floor.Some? then ApplyFloor(spec.floor.value, before, v) else v
  }

  function RowFor(rows: Rows, key: string): Option<string> {
    if key in rows then Some(rows[key]) else None
  }

  /** One pass, key by key: no row affects another key, so the order of the rows cannot matter. */
  function Overridden(registry: Registry, values: Values, rows: Rows, scope: Scope): Values
    requires ValidRegistry(registry) && Typed(registry, values)
  {
    map key | key in values :: Effective(registry[key], values[key], RowFor(rows, key), scope)
  }

  function Resolved(registry: Registry, deployment: Values, workspace: Option<Rows>, member: Option<Rows>): Values
    requires ValidRegistry(registry) && ValidDeployment(registry, deployment)
  {
    var base := Base(registry, deployment);
    if workspace.None? then base
    else
      var first := Overridden(registry, base, workspace.value, Workspace);
      if member.None? then first else Overridden(registry, first, member.value, Member)
  }

  /** `listing` names each key of `rows` once, in the order in which the mapping is iterated. */
  ghost predicate Lists(rows: Rows, listing: seq<string>) {
    && (forall key :: key in listing <==> key in rows)
    && (forall i, j :: 0 <= i < j < |listing| ==> listing[i] != listing[j])
  }

  /** The mapping that `resolve` fills and `_apply_rows` updates in place. */
  class Table {
    var values: Values

    constructor (values: Values)
      ensures this.values == values
    {
      this.values := values;
    }

    /** `_apply_rows`, for any iteration order of the rows. */
    method ApplyRows(registry: Registry, rows: Rows, listing: seq<string>, scope: Scope)
      requires ValidRegistry(registry) && Typed(registry, values) && Lists(rows, listing)
      modifies this
      ensures values == Overridden(registry, old(values), rows, scope)
      ensures Typed(registry, values)
    {
      ghost var done: set<string> := {};
      for i := 0 to |listing|
        invariant Typed(registry, values)
        invariant forall j :: 0 <= j < |listing| ==> (listing[j] in done <==> j < i)
        invariant forall key <- registry :: key !in done ==> values[key] == old(values)[key]
        invariant forall key <- registry :: key in done ==>
          values[key] == Effective(registry[key], old(values)[key], RowFor(rows, key), scope)
      {
        var key := listing[i];
        assert key in listing;
        ApplyRow(registry, key, rows[key], scope);
        done := done + {key};
      }
      forall key | key in registry
        ensures values[key] == Effective(registry[key], old(values)[key], RowFor(rows, key), scope)
      {
        if key in rows { assert key in listing; }
      }
    }

    /** One iteration: a row for an undeclared key, of another scope or of bad text is ignored. */
    method ApplyRow(registry: Registry, key: string, text: string, scope: Scope)
      requires ValidRegistry(registry) && Typed(registry, values)
      modifies this
      ensures key !in registry ==> values == old(values)
      ensures key in registry ==>
        values == old(values)[key := Effective(registry[key], old(values)[key], Some(text), scope)]
    {
      if key !in registry {
        return;
      }
      var spec := registry[key];
      if spec.scope != scope {
        return;
      }
      var decoded := DecodeText(spec, text);
      if decoded.None? {
        return;
      }
      DecodedIsStorable(spec, text);
      var value := decoded.value;
      if spec.floor.Some? {
        value := ApplyFloor(spec.floor.value, values[key], value);
      }
      values := values[key := value];
    }
  }

  /** `resolve`: member rows are read only when there is a workspace to read them from. */
  method Resolve(registry: Registry, deployment: Values, workspace: Option<Rows>, member: Option<Rows>,
                 workspaceListing: seq<string>, memberListing: seq<string>)
    returns (resolved: Values)
    requires ValidRegistry(registry) && ValidDeployment(registry, deployment)
    requires workspace.Some? ==> Lists(workspace.value, workspaceListing)
    requires member.Some? ==> Lists(member.value, memberListing)
    ensures resolved == Resolved(registry, deployment, workspace, member)
  {
    var table := new Table(Base(registry, deployment));
    if workspace.Some? {
      table.ApplyRows(registry, workspace.value, workspaceListing, Workspace);
      if member.Some? {
        table.ApplyRows(registry, member.value, memberListing, Member);
      }
    }
    return table.values;
  }

  /** The one row that can override a key: one of the key's own scope, and no row without a workspace. */
  function RowOf(spec: KeySpec, key: string, workspace: Option<Rows>, member: Option<Rows>): Option<string> {
    match spec.scope
    case Deployment => None
    case Workspace => if workspace.Some? then RowFor(workspace.value, key) else None
    case Member => if workspace.Some? then MemberRowFor(member, key) else None
  }

  /** The row's value, unless there is no row or its text is not one of the key's. */
  function OverrideOf(spec: KeySpec, key: string, workspace: Option<Rows>, member: Option<Rows>): Option<Value> {
    match RowOf(spec, key, workspace, member)
    case None => None
    case Some(text) => DecodeText(spec, text)
  }

  /**
   * What a key resolves to: without an applicable row of good text the deployment layer's value, or the
   * default where that layer has none; and otherwise the row's value, under the floor of that same value.
   */
  lemma ResolvedValue(
    registry: Registry, deployment: Values, workspace: Option<Rows>, member: Option<Rows>, key: string)
    requires ValidRegistry(registry) && ValidDeployment(registry, deployment) && key in registry
    ensures key in Resolved(registry, deployment, workspace, member)
    ensures var spec, resolved := registry[key], Resolved(registry, deployment, workspace, member)[key];
      var deployed := if key in deployment then deployment[key] else spec.default;
      match OverrideOf(spec, key, workspace, member)
      case None => resolved == deployed
      case Some(override) =>
        if spec.floor.None? then resolved == override
        else
          && MatchesType(FloorType(spec.floor.value), override)
          && resolved == ApplyFloor(spec.floor.value, deployed, override)
  {
  }

  /**
   * Whatever text the rows hold: exactly the declared keys come out, each of its declared type; a
   * deployment-scope key has its deployment value, or else its default; and a floored key is no looser
   * than that.
   */
  lemma ResolutionIsSafe(registry: Registry, deployment: Values, workspace: Option<Rows>, member: Option<Rows>)
    requires ValidRegistry(registry) && ValidDeployment(registry, deployment)
    ensures var resolved := Resolved(registry, deployment, workspace, member);
      && Typed(registry, resolved)
      && forall key <- registry ::
           var deployed := if key in deployment then deployment[key] else registry[key].default;
           && (registry[key].scope == Deployment ==> resolved[key] == deployed)
           && (registry[key].floor.Some? ==> NoLooser(registry[key].floor.value, resolved[key], deployed))
  {
    var resolved := Resolved(registry, deployment, workspace, member);
    forall key | key in registry
      ensures var deployed := if key in deployment then deployment[key] else registry[key].default;
        && (registry[key].scope == Deployment ==> resolved[key] == deployed)
        && (registry[key].floor.Some? ==> NoLooser(registry[key].floor.value, resolved[key], deployed))
    {
      ResolvedValue(registry, deployment, workspace, member, key);
    }
  }

  /** The key's member row, when there are member rows at all. */
  function MemberRowFor(member: Option<Rows>, key: string): Option<string> {
    if member.Some? then RowFor(member.value, key) else None
  }

  /** A key is decided by its own rows alone: whatever else the rows hold, agreeing on it gives it one value. */
  lemma RowsActKeywise(
    registry: Registry, deployment: Values, a: Rows, b: Rows, m: Option<Rows>, n: Option<Rows>, key: string)
    requires ValidRegistry(registry) && ValidDeployment(registry, deployment) && key in registry
    requires RowFor(a, key) == RowFor(b, key) && MemberRowFor(m, key) == MemberRowFor(n, key)
    ensures Resolved(registry, deployment, Some(a), m)[key] == Resolved(registry, deployment, Some(b), n)[key]
  {
    var base := Base(registry, deployment);
    assert Overridden(registry, base, a, Workspace)[key] == Overridden(registry, base, b, Workspace)[key];
  }
}

/** The write path: what a writer may store, and what a reader then sees. */
module SettingsWritePath {
  import opened Text
  import opened SettingsSchema
  import opened SettingsResolver

  datatype RefusalState = SettingUndeclared | SettingScope | SettingType | SettingFloorViolation

  datatype Verdict =
    | Accepted(value: Value, encoded: string, valueType: ValueType)
    | Refused(state: RefusalState)
    | MistypedDeployment

  /** `validate_override`; `MistypedDeployment` stands for the exception raised on a bad deployment value. */
  function ValidateOverride(registry: Registry, key: string, value: Value, deployment: Value, scope: Scope): Verdict
    requires ValidRegistry(registry)
  {
    if key !in registry then Refused(SettingUndeclared)
    else
      var spec := registry[key];
      if scope == Deployment || spec.scope != scope then Refused(SettingScope)
      else if !MatchesType(spec.valueType, value) || !spec.Chooses(value) then Refused(SettingType)
      else if spec.floor.Some? && !MatchesType(spec.valueType, deployment) then MistypedDeployment
      else if spec.floor.Some? && IsLooser(spec.floor.value, deployment, value) then Refused(SettingFloorViolation)
      else Accepted(value, EncodeText(spec, value), spec.valueType)
  }

  /** The four refusals, each exactly when its cause is the first one present. */
  lemma RefusalCauses(registry: Registry, key: string, value: Value, deployment: Value, scope: Scope)
    requires ValidRegistry(registry)
    requires key in registry ==> MatchesType(registry[key].valueType, deployment)
    ensures var verdict := ValidateOverride(registry, key, value, deployment, scope);
      && (verdict == Refused(SettingUndeclared) <==> key !in registry)
      && (key in registry ==>
            var spec := registry[key];
            var writable := scope != Deployment && spec.scope == scope;
            var typed := MatchesType(spec.valueType, value) && spec.Chooses(value);
            var tight := spec.floor.Some? ==> NoLooser(spec.floor.value, value, deployment);
            && (verdict == Refused(SettingScope) <==> !writable)
            && (verdict == Refused(SettingType) <==> writable && !typed)
            && (verdict == Refused(SettingFloorViolation) <==> writable && typed && !tight)
            && (verdict.Accepted? <==> writable && typed && tight))
      && !verdict.MistypedDeployment?
  {
  }

  /**
   * The item-by-item condition under which a list stored for a key reads back. A list without a floor,
   * or under `subset`, needs every item clean. Under `union` the deployment's own items come back
   * whatever their text, provided that the pieces their text falls into are listed too.
   */
  predicate Survives(spec: KeySpec, deployment: Value, value: Value)
    requires spec.Valid() && MatchesType(spec.valueType, value) && MatchesType(spec.valueType, deployment)
  {
    value.List? ==>
      if spec.floor == Some(Union) then
        forall x <- value.items :: CleanItem(x) || (x in deployment.items && Includes(value.items, DecodeList(x)))
      else CleanItems(value.items)
  }

  /** What a reader sees after the write, under the same deployment value. */
  function ReadBack(spec: KeySpec, deployment: Value, encoded: string): Value
    requires spec.Valid() && MatchesType(spec.valueType, deployment)
  {
    Effective(spec, deployment, Some(encoded), spec.scope)
  }

  predicate SameSetting(spec: KeySpec, a: Value, b: Value) {
    if spec.floor.Some? then SameUnderFloor(spec.floor.value, a, b) else a == b
  }

  /** An accepted override reads back as itself (as the same set, for a floored list) exactly when it survives. */
  lemma AcceptedReadsBack(registry: Registry, key: string, value: Value, deployment: Value, scope: Scope)
    requires ValidRegistry(registry)
    requires key in registry ==> MatchesType(registry[key].valueType, deployment)
    requires ValidateOverride(registry, key, value, deployment, scope).Accepted?
    ensures var spec, encoded := registry[key], ValidateOverride(registry, key, value, deployment, scope).encoded;
      SameSetting(spec, ReadBack(spec, deployment, encoded), value) <==> Survives(spec, deployment, value)
  {
    var spec := registry[key];
    if value.List? {
      ListReadsBack(spec, deployment, value.items);
    } else {
      CodecRoundTrip(spec, value);
    }
  }

  lemma ListReadsBack(spec: KeySpec, deployment: Value, items: seq<string>)
    requires spec.Valid() && spec.valueType.ListType? && deployment.List?
    requires spec.floor.Some? ==> NoLooser(spec.floor.value, List(items), deployment)
    ensures var encoded := EncodeText(spec, List(items));
      SameSetting(spec, ReadBack(spec, deployment, encoded), List(items)) <==> Survives(spec, deployment, List(items))
  {
    var text := Join(items, ',');
    DecodeListIsClean(text);
    ListRoundTrip(items);
    assert DecodeText(spec, text) == Some(List(DecodeList(text)));
    match spec.floor
    case None =>
    case Some(Subset) => SubsetReadsBack(deployment.items, items, DecodeList(text));
    case Some(Union) => UnionReadsBack(deployment.items, items);
  }

  lemma SubsetReadsBack(base: seq<string>, items: seq<string>, decoded: seq<string>)
    requires Includes(base, items) && CleanItems(decoded) && (decoded == items <==> CleanItems(items))
    ensures var back := Filter(base, decoded, true);
      Includes(back, items) && Includes(items, back) <==> CleanItems(items)
  {
  }

  lemma {:induction false} PiecesConcat(a: seq<string>, b: seq<string>)
    ensures Pieces(a + b) == Pieces(a) + Pieces(b)
  {
    if a == [] {
      assert a + b == b;
    } else {
      assert (a + b)[1..] == a[1..] + b;
      PiecesConcat(a[1..], b);
    }
  }

  /** The pieces of a joined list are the pieces of its items. */
  lemma {:induction false} PiecesOfJoin(items: seq<string>, p: string)
    ensures p in DecodeList(Join(items, ',')) <==> exists x <- items :: p in DecodeList(x)
  {
    if items == [] {
      assert Split("", ',') == [""] && [""][1..] == [] && Strip("") == "";
    } else if |items| == 1 {
      assert items[0] in items;
    } else {
      PiecesOfJoin(items[1..], p);
      SplitAtSeparator(items[0], Join(items[1..], ','), ',');
      PiecesConcat(Split(items[0], ','), Split(Join(items[1..], ','), ','));
      assert DecodeList(Join(items, ',')) == DecodeList(items[0]) + DecodeList(Join(items[1..], ','));
      assert items[0] in items && forall x <- items[1..] :: x in items;
      assert forall x <- items :: x == items[0] || x in items[1..];
    }
  }

  lemma DecodeCleanItem(x: string)
    requires CleanItem(x)
    ensures DecodeList(x) == [x]
  {
    SplitWithoutSeparator(x, ',');
    assert forall y <- [x] :: CleanItem(y);
    PiecesOfClean([x]);
  }

  lemma UnionReadsBack(base: seq<string>, items: seq<string>)
    requires Includes(items, base)
    ensures var back := base + Filter(DecodeList(Join(items, ',')), base, false);
      Includes(back, items) && Includes(items, back) <==>
        forall x <- items :: CleanItem(x) || (x in base && Includes(items, DecodeList(x)))
  {
    var decoded := DecodeList(Join(items, ','));
    var back := base + Filter(decoded, base, false);
    DecodeListIsClean(Join(items, ','));
    forall p ensures p in decoded <==> exists x <- items :: p in DecodeList(x) { PiecesOfJoin(items, p); }
    forall x | x in items && CleanItem(x) ensures x in decoded && DecodeList(x) == [x] {
      DecodeCleanItem(x);
      assert x in DecodeList(x);
    }
    if Includes(back, items) && Includes(items, back) {
      forall x | x in items ensures CleanItem(x) || (x in base && Includes(items, DecodeList(x))) {
        assert x in back;
        forall p | p in DecodeList(x) ensures p in items { assert p in decoded && p in back; }
      }
    }
    if forall x <- items :: CleanItem(x) || (x in base && Includes(items, DecodeList(x))) {
      forall p | p in decoded ensures p in items {
        var x :| x in items && p in DecodeList(x);
      }
    }
  }

  /**
   * Under `union`, any item that is not clean may be added to the deployment's list: it is accepted, and a
   * reader sees the pieces that its text falls into instead of the item.
   */
  lemma UncleanItemComesApart(registry: Registry, key: string, base: seq<string>, x: string)
    requires ValidRegistry(registry) && key in registry
    requires registry[key].floor == Some(Union) && registry[key].scope == Workspace
    requires !CleanItem(x) && x !in base
    ensures var verdict := ValidateOverride(registry, key, List(base + [x]), List(base), Workspace);
      && verdict.Accepted?
      && var back := ReadBack(registry[key], List(base), verdict.encoded);
         back.List? && x !in back.items && forall p <- DecodeList(x) :: p in back.items
  {
    var spec, text := registry[key], Join(base + [x], ',');
    UnionLosesUnclean(base, base + [x], x);
    assert DecodeText(spec, text) == Some(List(DecodeList(text)));
  }

  lemma UnionLosesUnclean(base: seq<string>, items: seq<string>, x: string)
    requires x in items && x !in base && !CleanItem(x)
    ensures var back := base + Filter(DecodeList(Join(items, ',')), base, false);
      x !in back && forall p <- DecodeList(x) :: p in back
  {
    DecodeListIsClean(Join(items, ','));
    forall p | p in DecodeList(x) ensures p in DecodeList(Join(items, ',')) { PiecesOfJoin(items, p); }
  }

  /** Such an item: a comma in it, accepted, and two items afterwards. */
  lemma CommaItemIsSplit(registry: Registry, key: string, base: seq<string>)
    requires ValidRegistry(registry) && key in registry
    requires registry[key].floor == Some(Union) && registry[key].scope == Workspace && "a,b" !in base
    ensures var verdict := ValidateOverride(registry, key, List(base + ["a,b"]), List(base), Workspace);
      && verdict.Accepted?
      && var back := ReadBack(registry[key], List(base), verdict.encoded);
         back.List? && "a" in back.items && "b" in back.items && "a,b" !in back.items
  {
    CommaSplits();
    assert "a,b"[1] == ',';
    UncleanItemComesApart(registry, key, base, "a,b");
    assert ["a", "b"][0] in DecodeList("a,b") && ["a", "b"][1] in DecodeList("a,b");
  }

  lemma CommaSplits()
    ensures DecodeList("a,b") == ["a", "b"]
  {
    assert "a,b" == "a" + [','] + "b";
    SplitAtSeparator("a", "b", ',');
    SplitWithoutSeparator("a", ',');
    SplitWithoutSeparator("b", ',');
    assert Split("a,b", ',') == ["a", "b"];
    PiecesOfClean(["a", "b"]);
  }
}
