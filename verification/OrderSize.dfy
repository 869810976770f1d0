/** Mapping order-size limits onto engine barriers (engine/mapping.go, orderSizeAxes). */
module OrderSize {
  import opened Domain

  datatype Scope =
    | Broker
    | UnderlyingAsset | SettlementAsset
    | AccountUnderlyingAsset | AccountSettlementAsset
    | OtherScope // a scope of another policy

  // A ceiling as stored: empty, a positive decimal the engine holds exactly, a positive
  // decimal it refuses, or any other text.
  datatype Ceiling = Absent | Size(value: real) | Unrepresentable | NotPositive

  datatype Limit = Limit(scope: Scope, account: string, asset: string, maxQuantity: Ceiling, maxNotional: Ceiling)

  // policies.OrderSizeLimit
  datatype SizeLimit = SizeLimit(maxQuantity: Option<real>, maxNotional: Option<real>)

  datatype AssetBarrier = AssetBarrier(limit: SizeLimit, asset: string)

  datatype AccountAssetBarrier = AccountAssetBarrier(limit: SizeLimit, account: nat, asset: string)

  datatype Axes = Axes(
    broker: Option<SizeLimit>, assets: seq<AssetBarrier>, accountAssets: seq<AccountAssetBarrier>)

  // The resolver's forward maps: account code to engine id, asset code to engine asset.
  datatype Codes = Codes(accounts: map<string, nat>, assets: map<string, string>)

  predicate HasAccountAxis(scope: Scope) {
    scope == AccountUnderlyingAsset || scope == AccountSettlementAsset
  }

  // domain.LimitOrderSize.Validate, up to the wording of its errors.
  predicate Valid(l: Limit) {
    && l.scope != OtherScope
    && (HasAccountAxis(l.scope) <==> l.account != "")
    && (l.scope != Broker <==> l.asset != "")
    && (l.scope == UnderlyingAsset || l.scope == AccountUnderlyingAsset ==> l.maxQuantity != Absent && l.maxNotional == Absent)
    && (l.scope == SettlementAsset || l.scope == AccountSettlementAsset ==> l.maxNotional != Absent && l.maxQuantity == Absent)
    && !(l.maxQuantity == Absent && l.maxNotional == Absent)
    && l.maxQuantity != NotPositive && l.maxNotional != NotPositive
  }

  function Parsed(c: Ceiling): Option<real> {
    if c.Size? then Some(c.value) else None
  }

  function OrderSizeValue(l: Limit): Result<SizeLimit> {
    if l.maxQuantity == Unrepresentable || l.maxNotional == Unrepresentable then Err(Internal)
    else Ok(SizeLimit(Parsed(l.maxQuantity), Parsed(l.maxNotional)))
  }

  function MergeOrderSizeValue(current: SizeLimit, incoming: SizeLimit): Result<SizeLimit> {
    if current.maxQuantity.Some? && incoming.maxQuantity.Some? then Err(Invalid)
    else if current.maxNotional.Some? && incoming.maxNotional.Some? then Err(Invalid)
    else Ok(SizeLimit(
      if incoming.maxQuantity.Some? then incoming.maxQuantity else current.maxQuantity,
      if incoming.maxNotional.Some? then incoming.maxNotional else current.maxNotional))
  }

  // The simple form: one size per barrier key.

  datatype Key = BrokerKey | AssetKey(asset: string) | AccountAssetKey(account: nat, engineAsset: string)

  type Sizes = map<Key, SizeLimit>

  function KeyOf(l: Limit, codes: Codes): Result<Key> {
    if l.scope == Broker then Ok(BrokerKey)
    else if HasAccountAxis(l.scope) then
      if l.account !in codes.accounts || l.asset !in codes.assets then Err(Invalid)
      else Ok(AccountAssetKey(codes.accounts[l.account], codes.assets[l.asset]))
    else if l.scope == OtherScope || l.asset !in codes.assets then Err(Invalid)
    else Ok(AssetKey(codes.assets[l.asset]))
  }

  function Place(sizes: Sizes, key: Key, size: SizeLimit): Result<Sizes> {
    if key !in sizes then Ok(sizes[key := size])
    else if key == BrokerKey then Err(Internal)
    else
      match MergeOrderSizeValue(sizes[key], size)
      case Err(e) => Err(e)
      case Ok(merged) => Ok(sizes[key := merged])
  }

  function PlaceLimit(sizes: Sizes, l: Limit, codes: Codes): Result<Sizes> {
    if !Valid(l) then Err(Invalid) else
    match OrderSizeValue(l)
    case Err(e) => Err(e)
    case Ok(size) =>
      match KeyOf(l, codes)
      case Err(e) => Err(e)
      case Ok(key) => Place(sizes, key, size)
  }

  function Collect(limits: seq<Limit>, codes: Codes): Result<Sizes> {
    if limits == [] then Ok(map[]) else
    match Collect(limits[..|limits| - 1], codes)
    case Err(e) => Err(e)
    case Ok(sizes) => PlaceLimit(sizes, limits[|limits| - 1], codes)
  }

  // The axes hold exactly the sizes, one barrier per key.
  predicate Encodes(x: Axes, sizes: Sizes) {
    && (x.broker.Some? <==> BrokerKey in sizes)
    && (x.broker.Some? ==> x.broker.value == sizes[BrokerKey])
    && (forall i | 0 <= i < |x.assets| ::
          AssetKey(x.assets[i].asset) in sizes && sizes[AssetKey(x.assets[i].asset)] == x.assets[i].limit)
    && (forall i, j | 0 <= i < j < |x.assets| :: x.assets[i].asset != x.assets[j].asset)
    && (forall key | key in sizes && key.AssetKey? :: exists i :: 0 <= i < |x.assets| && x.assets[i].asset == key.asset)
    && (forall i | 0 <= i < |x.accountAssets| ::
          KeyAt(x, i) in sizes && sizes[KeyAt(x, i)] == x.accountAssets[i].limit)
    && (forall i, j | 0 <= i < j < |x.accountAssets| :: KeyAt(x, i) != KeyAt(x, j))
    && (forall key | key in sizes && key.AccountAssetKey? :: exists i :: 0 <= i < |x.accountAssets| && KeyAt(x, i) == key)
  }

  function KeyAt(x: Axes, i: nat): Key
    requires i < |x.accountAssets|
  {
    AccountAssetKey(x.accountAssets[i].account, x.accountAssets[i].asset)
  }

  // The loop's index maps say where each key's barrier is.

  predicate AssetsPlaced(assets: seq<AssetBarrier>, indexes: map<string, nat>, sizes: Sizes) {
    && (forall key | key in sizes && key.AssetKey? :: key.asset in indexes)
    && (forall a | a in indexes ::
          && AssetKey(a) in sizes && indexes[a] < |assets|
          && assets[indexes[a]] == AssetBarrier(sizes[AssetKey(a)], a))
    && (forall i | 0 <= i < |assets| :: assets[i].asset in indexes && indexes[assets[i].asset] == i)
  }

  predicate AccountAssetsPlaced(barriers: seq<AccountAssetBarrier>, indexes: map<(nat, string), nat>, sizes: Sizes) {
    && (forall key | key in sizes && key.AccountAssetKey? :: (key.account, key.engineAsset) in indexes)
    && (forall k | k in indexes ::
          && AccountAssetKey(k.0, k.1) in sizes && indexes[k] < |barriers|
          && barriers[indexes[k]] == AccountAssetBarrier(sizes[AccountAssetKey(k.0, k.1)], k.0, k.1))
    && (forall i | 0 <= i < |barriers| ::
          (barriers[i].account, barriers[i].asset) in indexes && indexes[(barriers[i].account, barriers[i].asset)] == i)
  }

  predicate BrokerPlaced(broker: Option<SizeLimit>, sizes: Sizes) {
    broker == if BrokerKey in sizes then Some(sizes[BrokerKey]) else None
  }

  // The loop's variables.
  datatype Progress = Progress(
    x: Axes, assetIndexes: map<string, nat>, accountAssetIndexes: map<(nat, string), nat>)

  predicate Placed(p: Progress, sizes: Sizes) {
    && BrokerPlaced(p.x.broker, sizes)
    && AssetsPlaced(p.x.assets, p.assetIndexes, sizes)
    && AccountAssetsPlaced(p.x.accountAssets, p.accountAssetIndexes, sizes)
  }

  lemma PlacedEncodes(p: Progress, sizes: Sizes)
    requires Placed(p, sizes)
    ensures Encodes(p.x, sizes)
  {
    forall key | key in sizes && key.AssetKey?
      ensures exists i :: 0 <= i < |p.x.assets| && p.x.assets[i].asset == key.asset
    {
      assert p.x.assets[p.assetIndexes[key.asset]].asset == key.asset;
    }
    forall key | key in sizes && key.AccountAssetKey?
      ensures exists i :: 0 <= i < |p.x.accountAssets| && KeyAt(p.x, i) == key
    {
      assert KeyAt(p.x, p.accountAssetIndexes[(key.account, key.engineAsset)]) == key;
    }
  }

  function BrokerAdded(p: Progress, size: SizeLimit): Progress {
    p.(x := p.x.(broker := Some(size)))
  }

  function AssetMerged(p: Progress, index: nat, merged: SizeLimit): Progress
    requires index < |p.x.assets|
  {
    p.(x := p.x.(assets := p.x.assets[index := AssetBarrier(merged, p.x.assets[index].asset)]))
  }

  function AssetAdded(p: Progress, asset: string, size: SizeLimit): Progress {
    p.(assetIndexes := p.assetIndexes[asset := |p.x.assets|],
       x := p.x.(assets := p.x.assets + [AssetBarrier(size, asset)]))
  }

  function AccountAssetMerged(p: Progress, index: nat, merged: SizeLimit): Progress
    requires index < |p.x.accountAssets|
  {
    var was := p.x.accountAssets[index];
    p.(x := p.x.(accountAssets := p.x.accountAssets[index := AccountAssetBarrier(merged, was.account, was.asset)]))
  }

  function AccountAssetAdded(p: Progress, account: nat, asset: string, size: SizeLimit): Progress {
    p.(accountAssetIndexes := p.accountAssetIndexes[(account, asset) := |p.x.accountAssets|],
       x := p.x.(accountAssets := p.x.accountAssets + [AccountAssetBarrier(size, account, asset)]))
  }

  lemma PlaceBroker(p: Progress, sizes: Sizes, size: SizeLimit)
    requires Placed(p, sizes)
    ensures
      var r := Place(sizes, BrokerKey, size);
      if p.x.broker.Some? then r == Err(Internal) else r.Ok? && Placed(BrokerAdded(p, size), r.value)
  {
  }

  lemma AssetPlaced(assets: seq<AssetBarrier>, indexes: map<string, nat>, sizes: Sizes, asset: string, size: SizeLimit)
    requires AssetsPlaced(assets, indexes, sizes)
    ensures
      var after := sizes[AssetKey(asset) := size];
      if asset !in indexes
      then AssetsPlaced(assets + [AssetBarrier(size, asset)], indexes[asset := |assets|], after)
      else indexes[asset] < |assets|
           && AssetsPlaced(assets[indexes[asset] := AssetBarrier(size, assets[indexes[asset]].asset)], indexes, after)
  {
  }

  lemma AccountAssetPlaced(
    barriers: seq<AccountAssetBarrier>, indexes: map<(nat, string), nat>, sizes: Sizes, k: (nat, string), size: SizeLimit)
    requires AccountAssetsPlaced(barriers, indexes, sizes)
    ensures
      var after := sizes[AccountAssetKey(k.0, k.1) := size];
      if k !in indexes
      then AccountAssetsPlaced(barriers + [AccountAssetBarrier(size, k.0, k.1)], indexes[k := |barriers|], after)
      else indexes[k] < |barriers|
           && var was := barriers[indexes[k]];
           AccountAssetsPlaced(barriers[indexes[k] := AccountAssetBarrier(size, was.account, was.asset)], indexes, after)
  {
  }

  lemma PlaceAsset(p: Progress, sizes: Sizes, asset: string, size: SizeLimit)
    requires Placed(p, sizes)
    ensures asset in p.assetIndexes ==> p.assetIndexes[asset] < |p.x.assets|
    ensures
      var r := Place(sizes, AssetKey(asset), size);
      if asset !in p.assetIndexes then r.Ok? && Placed(AssetAdded(p, asset, size), r.value) else
      var index := p.assetIndexes[asset];
      match MergeOrderSizeValue(p.x.assets[index].limit, size)
      case Err(e) => r == Err(e)
      case Ok(merged) => r.Ok? && Placed(AssetMerged(p, index, merged), r.value)
  {
    var r := Place(sizes, AssetKey(asset), size);
    if r.Ok? {
      AssetPlaced(p.x.assets, p.assetIndexes, sizes, asset, r.value[AssetKey(asset)]);
    }
  }

  lemma PlaceAccountAsset(p: Progress, sizes: Sizes, account: nat, asset: string, size: SizeLimit)
    requires Placed(p, sizes)
    ensures (account, asset) in p.accountAssetIndexes ==>
              p.accountAssetIndexes[(account, asset)] < |p.x.accountAssets|
    ensures
      var r, key := Place(sizes, AccountAssetKey(account, asset), size), (account, asset);
      if key !in p.accountAssetIndexes then r.Ok? && Placed(AccountAssetAdded(p, account, asset, size), r.value) else
      var index := p.accountAssetIndexes[key];
      match MergeOrderSizeValue(p.x.accountAssets[index].limit, size)
      case Err(e) => r == Err(e)
      case Ok(merged) => r.Ok? && Placed(AccountAssetMerged(p, index, merged), r.value)
  {
    var r := Place(sizes, AccountAssetKey(account, asset), size);
    if r.Ok? {
      AccountAssetPlaced(p.x.accountAssets, p.accountAssetIndexes, sizes, (account, asset),
                         r.value[AccountAssetKey(account, asset)]);
    }
  }

  lemma {:induction false} CollectStops(limits: seq<Limit>, codes: Codes, n: nat)
    requires n <= |limits| && Collect(limits[..n], codes).Err?
    ensures Collect(limits, codes) == Collect(limits[..n], codes)
    decreases |limits| - n
  {
    if n < |limits| {
      assert limits[..n + 1][..n] == limits[..n];
      CollectStops(limits, codes, n + 1);
    } else {
      assert limits[..n] == limits;
    }
  }

  lemma CollectNext(limits: seq<Limit>, codes: Codes, n: nat, sizes: Sizes)
    requires n < |limits| && Collect(limits[..n], codes) == Ok(sizes)
    ensures Collect(limits[..n + 1], codes) == PlaceLimit(sizes, limits[n], codes)
    ensures PlaceLimit(sizes, limits[n], codes).Err? ==>
              Collect(limits, codes) == PlaceLimit(sizes, limits[n], codes)
  {
    assert limits[..n + 1][..n] == limits[..n];
    if PlaceLimit(sizes, limits[n], codes).Err? {
      CollectStops(limits, codes, n + 1);
    }
  }

  // What the loop has after one more key is placed, or its error.
  ghost predicate Advances(r: Result<Progress>, placed: Result<Sizes>) {
    match placed
    case Err(e) => r == Err(e)
    case Ok(sizes) => r.Ok? && Placed(r.value, sizes)
  }

  method AddBroker(p: Progress, ghost sizes: Sizes, size: SizeLimit) returns (r: Result<Progress>)
    requires Placed(p, sizes)
    ensures Advances(r, Place(sizes, BrokerKey, size))
  {
    PlaceBroker(p, sizes, size);
    if p.x.broker.Some? {
      return Err(Internal);
    }
    return Ok(BrokerAdded(p, size));
  }

  method AddAsset(p: Progress, ghost sizes: Sizes, asset: string, size: SizeLimit) returns (r: Result<Progress>)
    requires Placed(p, sizes)
    ensures Advances(r, Place(sizes, AssetKey(asset), size))
  {
    PlaceAsset(p, sizes, asset, size);
    if asset !in p.assetIndexes {
      return Ok(AssetAdded(p, asset, size));
    }
    var index := p.assetIndexes[asset];
    var merged := MergeOrderSizeValue(p.x.assets[index].limit, size);
    if merged.Err? {
      return Err(merged.error);
    }
    return Ok(AssetMerged(p, index, merged.value));
  }

  method AddAccountAsset(p: Progress, ghost sizes: Sizes, account: nat, asset: string, size: SizeLimit)
    returns (r: Result<Progress>)
    requires Placed(p, sizes)
    ensures Advances(r, Place(sizes, AccountAssetKey(account, asset), size))
  {
    PlaceAccountAsset(p, sizes, account, asset, size);
    if (account, asset) !in p.accountAssetIndexes {
      return Ok(AccountAssetAdded(p, account, asset, size));
    }
    var index := p.accountAssetIndexes[(account, asset)];
    var merged := MergeOrderSizeValue(p.x.accountAssets[index].limit, size);
    if merged.Err? {
      return Err(merged.error);
    }
    return Ok(AccountAssetMerged(p, index, merged.value));
  }

  method AddLimit(p: Progress, ghost sizes: Sizes, limit: Limit, codes: Codes) returns (r: Result<Progress>)
    requires Placed(p, sizes)
    ensures Advances(r, PlaceLimit(sizes, limit, codes))
  {
    if !Valid(limit) {
      return Err(Invalid);
    }
    var size := OrderSizeValue(limit);
    if size.Err? {
      return Err(size.error);
    }
    match limit.scope
    case Broker =>
      r := AddBroker(p, sizes, size.value);
    case UnderlyingAsset | SettlementAsset =>
      if limit.asset !in codes.assets {
        return Err(Invalid);
      }
      r := AddAsset(p, sizes, codes.assets[limit.asset], size.value);
    case AccountUnderlyingAsset | AccountSettlementAsset =>
      if limit.account !in codes.accounts {
        return Err(Invalid);
      }
      if limit.asset !in codes.assets {
        return Err(Invalid);
      }
      r := AddAccountAsset(p, sizes, codes.accounts[limit.account], codes.assets[limit.asset], size.value);
  }

  /** orderSizeAxes: the indexed loop builds the simple form's sizes, or fails with its error. */
  method OrderSizeAxes(limits: seq<Limit>, codes: Codes) returns (r: Result<Axes>)
    ensures match Collect(limits, codes)
            case Err(e) => r == Err(e)
            case Ok(sizes) => r.Ok? && Encodes(r.value, sizes)
  {
    var p := Progress(Axes(None, [], []), map[], map[]);
    ghost var sizes: Sizes := map[];
    for n := 0 to |limits|
      invariant Collect(limits[..n], codes) == Ok(sizes)
      invariant Placed(p, sizes)
    {
      CollectNext(limits, codes, n, sizes);
      ghost var placed := PlaceLimit(sizes, limits[n], codes);
      var next := AddLimit(p, sizes, limits[n], codes);
      if next.Err? {
        return Err(next.error);
      }
      p, sizes := next.value, placed.value;
    }
    assert limits[..|limits|] == limits;
    PlacedEncodes(p, sizes);
    return Ok(p.x);
  }

  // What is configured: every (key, metric, value) triple, and which limits clash.

  datatype Metric = Quantity | Notional

  function Cap(size: SizeLimit, metric: Metric): Option<real> {
    if metric == Quantity then size.maxQuantity else size.maxNotional
  }

  // The barrier a limit is for, read off its own scope, account and asset.
  predicate IsFor(l: Limit, codes: Codes, key: Key) {
    match key
    case BrokerKey => l.scope == Broker
    case AssetKey(asset) =>
      && (l.scope == UnderlyingAsset || l.scope == SettlementAsset)
      && l.asset in codes.assets && codes.assets[l.asset] == asset
    case AccountAssetKey(account, asset) =>
      && (l.scope == AccountUnderlyingAsset || l.scope == AccountSettlementAsset)
      && l.account in codes.accounts && codes.accounts[l.account] == account
      && l.asset in codes.assets && codes.assets[l.asset] == asset
  }

  /** A limit is placed under the key of its own scope, account and asset, and no other. */
  lemma KeyIsExactly(l: Limit, codes: Codes, key: Key)
    ensures KeyOf(l, codes) == Ok(key) <==> IsFor(l, codes, key)
  {
  }

  // A limit's own ceilings, whatever the engine makes of them.
  predicate Configures(l: Limit, codes: Codes, key: Key, metric: Metric, value: real) {
    IsFor(l, codes, key) && (if metric == Quantity then l.maxQuantity else l.maxNotional) == Size(value)
  }

  lemma SizeIsTheCeilings(l: Limit, metric: Metric, value: real)
    ensures OrderSizeValue(l).Ok? <==> l.maxQuantity != Unrepresentable && l.maxNotional != Unrepresentable
    ensures OrderSizeValue(l).Ok? ==>
              (Cap(OrderSizeValue(l).value, metric) == Some(value)
               <==> (if metric == Quantity then l.maxQuantity else l.maxNotional) == Size(value))
  {
  }

  predicate Holds(sizes: Sizes, key: Key, metric: Metric, value: real) {
    key in sizes && Cap(sizes[key], metric) == Some(value)
  }

  predicate Usable(l: Limit, codes: Codes) {
    && Valid(l) && l.maxQuantity != Unrepresentable && l.maxNotional != Unrepresentable
    && (l.scope != Broker ==> l.asset in codes.assets)
    && (HasAccountAxis(l.scope) ==> l.account in codes.accounts)
  }

  // A ceiling that is given as a positive number.
  predicate Given(c: Ceiling) {
    c.Size? || c == Unrepresentable
  }

  /** The valid limits, scope by scope. */
  lemma ValidByScope(l: Limit)
    ensures Valid(l) <==>
              match l.scope
              case Broker =>
                && l.account == "" && l.asset == "" && (Given(l.maxQuantity) || Given(l.maxNotional))
                && l.maxQuantity != NotPositive && l.maxNotional != NotPositive
              case UnderlyingAsset => l.account == "" && l.asset != "" && Given(l.maxQuantity) && l.maxNotional == Absent
              case SettlementAsset => l.account == "" && l.asset != "" && Given(l.maxNotional) && l.maxQuantity == Absent
              case AccountUnderlyingAsset =>
                l.account != "" && l.asset != "" && Given(l.maxQuantity) && l.maxNotional == Absent
              case AccountSettlementAsset =>
                l.account != "" && l.asset != "" && Given(l.maxNotional) && l.maxQuantity == Absent
              case OtherScope => false
  {
  }

  // Two limits that cannot both be configured: two for the broker, or one (key, metric) pair twice.
  predicate Clash(a: Limit, b: Limit, codes: Codes) {
    && KeyOf(a, codes).Ok? && KeyOf(a, codes) == KeyOf(b, codes)
    && (|| KeyOf(a, codes).value == BrokerKey
        || (a.maxQuantity.Size? && b.maxQuantity.Size?)
        || (a.maxNotional.Size? && b.maxNotional.Size?))
  }

  predicate Configurable(limits: seq<Limit>, codes: Codes) {
    && (forall l | l in limits :: Usable(l, codes))
    && (forall i, j | 0 <= i < j < |limits| :: !Clash(limits[i], limits[j], codes))
  }

  // sizes holds every cap of the limits and no other, and no empty barrier.
  ghost predicate Conserves(sizes: Sizes, limits: seq<Limit>, codes: Codes) {
    && (forall key, metric, value ::
          Holds(sizes, key, metric, value) <==> exists l :: l in limits && Configures(l, codes, key, metric, value))
    && (forall key | key in sizes :: sizes[key].maxQuantity.Some? || sizes[key].maxNotional.Some?)
  }

  // A clash with an earlier limit shows in the sizes it left.
  lemma ClashIsHeld(sizes: Sizes, front: seq<Limit>, l: Limit, last: Limit, codes: Codes)
    requires Conserves(sizes, front, codes) && Usable(last, codes) && Usable(l, codes)
    requires l in front && Clash(l, last, codes)
    ensures PlaceLimit(sizes, last, codes).Err?
  {
    var key, s := KeyOf(last, codes).value, OrderSizeValue(l).value;
    var metric := if key == BrokerKey then (if s.maxQuantity.Some? then Quantity else Notional)
                  else if l.maxQuantity.Size? && last.maxQuantity.Size? then Quantity else Notional;
    assert Configures(l, codes, key, metric, Cap(s, metric).value);
    assert Holds(sizes, key, metric, Cap(s, metric).value);
  }

  lemma PlaceClashes(sizes: Sizes, front: seq<Limit>, last: Limit, codes: Codes)
    requires Conserves(sizes, front, codes) && Usable(last, codes)
    requires forall l | l in front :: Usable(l, codes)
    ensures PlaceLimit(sizes, last, codes).Ok? <==> forall l | l in front :: !Clash(l, last, codes)
  {
    var key, size := KeyOf(last, codes).value, OrderSizeValue(last).value;
    if l :| l in front && Clash(l, last, codes) {
      ClashIsHeld(sizes, front, l, last, codes);
    }
    if PlaceLimit(sizes, last, codes).Err? {
      var metric := if key == BrokerKey then (if sizes[key].maxQuantity.Some? then Quantity else Notional)
                    else if sizes[key].maxQuantity.Some? && size.maxQuantity.Some? then Quantity else Notional;
      assert Holds(sizes, key, metric, Cap(sizes[key], metric).value);
      var l :| l in front && Configures(l, codes, key, metric, Cap(sizes[key], metric).value);
      assert Clash(l, last, codes);
    }
  }

  lemma PlaceConserves(sizes: Sizes, front: seq<Limit>, last: Limit, codes: Codes)
    requires Conserves(sizes, front, codes) && PlaceLimit(sizes, last, codes).Ok?
    ensures Conserves(PlaceLimit(sizes, last, codes).value, front + [last], codes)
  {
    var after, limits := PlaceLimit(sizes, last, codes).value, front + [last];
    forall key, metric, value
      ensures Holds(after, key, metric, value) <==> exists l :: l in limits && Configures(l, codes, key, metric, value)
    {
      assert Holds(after, key, metric, value)
        <==> Holds(sizes, key, metric, value) || Configures(last, codes, key, metric, value);
      assert last in limits;
      assert forall l :: l in limits <==> l in front || l == last;
    }
  }

  /**
   * Valid, resolvable limits are configured exactly when at most one is the broker's and no
   * (key, metric) pair comes twice; the caps that come out are then exactly the caps that went in.
   */
  lemma {:induction false} CollectExactly(limits: seq<Limit>, codes: Codes)
    ensures Collect(limits, codes).Ok? <==> Configurable(limits, codes)
    ensures Collect(limits, codes).Ok? ==> Conserves(Collect(limits, codes).value, limits, codes)
  {
    if limits != [] {
      var front, last := limits[..|limits| - 1], limits[|limits| - 1];
      assert limits == front + [last];
      CollectExactly(front, codes);
      ConfigurableFront(front, last, codes);
      if Collect(front, codes).Ok? {
        var sizes := Collect(front, codes).value;
        if Usable(last, codes) {
          PlaceClashes(sizes, front, last, codes);
        }
        if PlaceLimit(sizes, last, codes).Ok? {
          PlaceConserves(sizes, front, last, codes);
        }
      }
    }
  }

  lemma ConfigurableFront(front: seq<Limit>, last: Limit, codes: Codes)
    ensures Configurable(front + [last], codes)
            <==> Configurable(front, codes) && Usable(last, codes) && forall l | l in front :: !Clash(l, last, codes)
  {
    var limits := front + [last];
    assert forall l :: l in limits <==> l in front || l == last;
    assert forall i | 0 <= i < |front| :: limits[i] == front[i];
    assert limits[|front|] == last;
    if Configurable(limits, codes) {
      forall l | l in front
        ensures !Clash(l, last, codes)
      {
        var i :| 0 <= i < |front| && front[i] == l;
        assert !Clash(limits[i], limits[|front|], codes);
      }
    }
  }

  // Order of the limits.

  lemma ClashIsSymmetric(a: Limit, b: Limit, codes: Codes)
    ensures Clash(a, b, codes) <==> Clash(b, a, codes)
  {
  }

  // Configurability read off the limits without their order.
  predicate ConfigurableBag(bag: multiset<Limit>, codes: Codes) {
    forall l | l in bag ::
      Usable(l, codes) && bag[l] == 1 && forall other | other in bag && other != l :: !Clash(l, other, codes)
  }

  lemma {:induction false} RepeatedLimit(limits: seq<Limit>, l: Limit)
    ensures multiset(limits)[l] <= 1 <==> forall i, j | 0 <= i < j < |limits| :: !(limits[i] == l && limits[j] == l)
  {
    if limits != [] {
      var front, last := limits[..|limits| - 1], limits[|limits| - 1];
      assert limits == front + [last];
      RepeatedLimit(front, l);
      assert forall i | 0 <= i < |front| :: front[i] == limits[i];
      if last == l && multiset(front)[l] > 0 {
        assert l in front;
        var i :| 0 <= i < |front| && front[i] == l;
        assert limits[i] == l && limits[|front|] == l;
      } else if last == l && multiset(front)[l] == 0 {
        assert l !in multiset(front) && l !in front;
      }
    }
  }

  lemma UsableClashesWithItself(l: Limit, codes: Codes)
    requires Usable(l, codes)
    ensures Clash(l, l, codes)
  {
  }

  lemma ConfigurableClashesNowhere(limits: seq<Limit>, codes: Codes, l: Limit, other: Limit)
    requires Configurable(limits, codes) && l in limits && other in limits && other != l
    ensures !Clash(l, other, codes)
  {
    var i :| 0 <= i < |limits| && limits[i] == l;
    var j :| 0 <= j < |limits| && limits[j] == other;
    ClashIsSymmetric(l, other, codes);
    assert i < j || j < i;
  }

  lemma ConfigurableMakesBag(limits: seq<Limit>, codes: Codes)
    requires Configurable(limits, codes)
    ensures ConfigurableBag(multiset(limits), codes)
  {
    forall l | l in multiset(limits)
      ensures Usable(l, codes) && multiset(limits)[l] == 1
      ensures forall other | other in multiset(limits) && other != l :: !Clash(l, other, codes)
    {
      assert l in limits;
      UsableClashesWithItself(l, codes);
      RepeatedLimit(limits, l);
      forall other | other in multiset(limits) && other != l
        ensures !Clash(l, other, codes)
      {
        assert other in limits;
        ConfigurableClashesNowhere(limits, codes, l, other);
      }
    }
  }

  lemma BagMakesConfigurable(limits: seq<Limit>, codes: Codes)
    requires ConfigurableBag(multiset(limits), codes)
    ensures Configurable(limits, codes)
  {
    forall l | l in limits
      ensures Usable(l, codes)
    {
      assert l in multiset(limits);
    }
    forall i, j | 0 <= i < j < |limits|
      ensures !Clash(limits[i], limits[j], codes)
    {
      assert limits[i] in multiset(limits) && limits[j] in multiset(limits);
      RepeatedLimit(limits, limits[i]);
    }
  }

  lemma ConfigurableIsABag(limits: seq<Limit>, codes: Codes)
    ensures Configurable(limits, codes) <==> ConfigurableBag(multiset(limits), codes)
  {
    if Configurable(limits, codes) {
      ConfigurableMakesBag(limits, codes);
    }
    if ConfigurableBag(multiset(limits), codes) {
      BagMakesConfigurable(limits, codes);
    }
  }

  /** Reordering the limits changes neither whether they can be configured nor any barrier. */
  lemma OrderDoesNotMatter(a: seq<Limit>, b: seq<Limit>, codes: Codes)
    requires multiset(a) == multiset(b)
    ensures Collect(a, codes).Ok? <==> Collect(b, codes).Ok?
    ensures Collect(a, codes).Ok? ==> Collect(a, codes) == Collect(b, codes)
  {
    CollectExactly(a, codes);
    CollectExactly(b, codes);
    ConfigurableIsABag(a, codes);
    ConfigurableIsABag(b, codes);
    if Collect(a, codes).Ok? {
      assert forall l :: l in a <==> l in multiset(a);
      assert forall l :: l in b <==> l in multiset(b);
      SameCapsSameSizes(Collect(a, codes).value, Collect(b, codes).value, a, b, codes);
    }
  }

  lemma SameCapsSameSizes(x: Sizes, y: Sizes, a: seq<Limit>, b: seq<Limit>, codes: Codes)
    requires Conserves(x, a, codes) && Conserves(y, b, codes)
    requires forall l :: l in a <==> l in b
    ensures x == y
  {
    forall key, metric, value
      ensures Holds(x, key, metric, value) <==> Holds(y, key, metric, value)
    {
    }
    forall key
      ensures key in x <==> key in y
      ensures key in x ==> x[key] == y[key]
    {
      CapsDetermineSize(x, y, key);
      CapsDetermineSize(y, x, key);
    }
  }

  lemma CapsDetermineSize(x: Sizes, y: Sizes, key: Key)
    requires forall metric, value :: Holds(x, key, metric, value) <==> Holds(y, key, metric, value)
    requires key in x ==> x[key].maxQuantity.Some? || x[key].maxNotional.Some?
    ensures key in x ==> key in y && x[key] == y[key]
  {
    if key in x {
      forall metric
        ensures Cap(x[key], metric).Some? ==> Holds(y, key, metric, Cap(x[key], metric).value)
      {
        if Cap(x[key], metric).Some? {
          assert Holds(x, key, metric, Cap(x[key], metric).value);
        }
      }
      assert key in y by {
        assert Cap(x[key], Quantity).Some? || Cap(x[key], Notional).Some?;
      }
      forall metric
        ensures Cap(x[key], metric) == Cap(y[key], metric)
      {
        if Cap(y[key], metric).Some? {
          assert Holds(y, key, metric, Cap(y[key], metric).value);
        }
      }
      assert Cap(x[key], Quantity) == Cap(y[key], Quantity) && Cap(x[key], Notional) == Cap(y[key], Notional);
    }
  }

  // Limit n is the first that cannot be configured with those before it, and e its error: the
  // adapter's own fault for a size the engine cannot hold and for a second broker limit, and
  // else the caller's.
  predicate FirstFaultAt(limits: seq<Limit>, codes: Codes, n: nat, e: Error) {
    && n < |limits| && Configurable(limits[..n], codes) && !Configurable(limits[..n + 1], codes)
    && var l := limits[n];
    e == if Valid(l) && (l.maxQuantity == Unrepresentable || l.maxNotional == Unrepresentable || l.scope == Broker)
         then Internal else Invalid
  }

  lemma PlaceLimitFails(sizes: Sizes, l: Limit, codes: Codes)
    requires PlaceLimit(sizes, l, codes).Err?
    ensures PlaceLimit(sizes, l, codes).error ==
              if Valid(l) && (l.maxQuantity == Unrepresentable || l.maxNotional == Unrepresentable || l.scope == Broker)
              then Internal else Invalid
  {
  }

  lemma FaultStaysFirst(front: seq<Limit>, last: Limit, codes: Codes, n: nat, e: Error)
    requires FirstFaultAt(front, codes, n, e)
    ensures FirstFaultAt(front + [last], codes, n, e)
  {
    var limits := front + [last];
    assert limits[..n] == front[..n] && limits[..n + 1] == front[..n + 1] && limits[n] == front[n];
  }

  lemma FaultIsLast(front: seq<Limit>, last: Limit, codes: Codes)
    requires Collect(front, codes).Ok? && PlaceLimit(Collect(front, codes).value, last, codes).Err?
    ensures FirstFaultAt(front + [last], codes, |front|, PlaceLimit(Collect(front, codes).value, last, codes).error)
  {
    var limits := front + [last];
    assert limits[..|front|] == front && limits[..|front| + 1] == limits;
    CollectExactly(front, codes);
    CollectExactly(limits, codes);
    PlaceLimitFails(Collect(front, codes).value, last, codes);
  }

  /** A refusal is of the first limit at fault, with the kind of its own fault. */
  lemma {:induction false} RefusesTheFirstFault(limits: seq<Limit>, codes: Codes)
    requires Collect(limits, codes).Err?
    ensures exists n: nat :: FirstFaultAt(limits, codes, n, Collect(limits, codes).error)
  {
    var front, last := limits[..|limits| - 1], limits[|limits| - 1];
    assert limits == front + [last];
    if Collect(front, codes).Err? {
      RefusesTheFirstFault(front, codes);
      var n: nat :| FirstFaultAt(front, codes, n, Collect(front, codes).error);
      FaultStaysFirst(front, last, codes, n, Collect(front, codes).error);
    } else {
      FaultIsLast(front, last, codes);
    }
  }
}
