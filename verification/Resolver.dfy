/** idResolver: the shared, mutable code/engine-id maps of one engine adapter (engine/mapping.go). */
module Resolver {
  import opened Domain
  import opened ResolverBook

  // The state every copy of a resolver points at. Asset ids are held as the
  // decimal text the engine knows them by; accounts and groups by their handle.
  class ResolverState {
    var accounts: map<string, nat>
    var accountAliases: map<nat, string>
    var assets: map<string, string>
    var assetIDs: map<nat, string>
    var assetAliases: map<string, string>
    var groups: map<string, nat>
    var groupAliases: map<nat, string>

    // The dictionary of assets, which the three asset maps encode.
    ghost var assetBook: Book

    constructor ()
      ensures Valid()
      ensures accounts == map[] && assetBook == map[] && groups == map[]
    {
      accounts, accountAliases := map[], map[];
      assets, assetIDs, assetAliases := map[], map[], map[];
      groups, groupAliases := map[], map[];
      assetBook := map[];
    }

    ghost predicate Valid()
      reads this
    {
      && Mirrors(Accounts, accounts, accountAliases)
      && Mirrors(Groups, groups, groupAliases)
      && AssetMapsAgree(assetBook, assets, assetIDs, assetAliases)
      && DecimalTexts(assetIDs)
    }

    /** Forward and reverse maps that agree encode bijections on valid ids. */
    lemma ValidIsConsistent()
      requires Valid()
      ensures forall kind: Kind :: Consistent(kind, View().Of(kind))
    {
    }

    ghost function View(): Dictionaries
      reads this
    {
      Dictionaries(accounts, assetBook, groups)
    }

    // Accounts.

    method AddAccount(account: Entry) returns (error: Option<Error>)
      requires Valid()
      modifies this
      ensures Valid()
      ensures Performed(Accounts, Add(account), error, old(View()), View())
    {
      if !ValidId(Accounts, account) {
        return Some(Invalid);
      }
      MirroredIds(Accounts, accounts, accountAliases);
      if account.code in accounts {
        return Some(AlreadyExists);
      }
      if account.id in accountAliases {
        return Some(Invalid);
      }
      AddMirrored(Accounts, accounts, accountAliases, account);
      accounts := accounts[account.code := account.id];
      accountAliases := accountAliases[account.id := account.code];
      return None;
    }

    method RenameAccount(oldCode: string, account: Entry) returns (error: Option<Error>)
      requires Valid()
      modifies this
      ensures Valid()
      ensures Performed(Accounts, Rename(oldCode, account), error, old(View()), View())
    {
      if !ValidId(Accounts, account) {
        return Some(Invalid);
      }
      if oldCode !in accounts {
        return Some(Invalid);
      }
      var currentID := accounts[oldCode];
      if currentID != account.id {
        return Some(Invalid);
      }
      if oldCode == account.code {
        return None;
      }
      if account.code in accounts {
        return Some(AlreadyExists);
      }
      RenameMirrored(Accounts, accounts, accountAliases, oldCode, account);
      accounts := accounts - {oldCode};
      accounts := accounts[account.code := currentID];
      accountAliases := accountAliases[currentID := account.code];
      return None;
    }

    // Assets. The three writes of each change are one step below; the checks that guard them come first.

    method SetAssets(
      ghost book: Book, codes: map<string, string>, ids: map<nat, string>, aliases: map<string, string>)
      requires Valid() && AssetMapsAgree(book, codes, ids, aliases) && DecimalTexts(ids)
      modifies this`assetBook, this`assets, this`assetIDs, this`assetAliases
      ensures Valid() && View() == old(View()).With(Assets, book)
    {
      assetBook, assets, assetIDs, assetAliases := book, codes, ids, aliases;
    }

    method StoreAsset(asset: Entry, ready: string)
      requires Valid() && ValidId(Assets, asset) && ready == DecimalText(asset.id)
      requires asset.code !in assets && ready !in assetAliases && asset.id !in assetIDs
      modifies this
      ensures Valid() && View() == old(View()).With(Assets, old(assetBook)[asset.code := asset.id])
    {
      AddAssetMirrored(assetBook, assets, assetIDs, assetAliases, asset, ready);
      assert DecimalTexts(assetIDs[asset.id := ready]);
      SetAssets(assetBook[asset.code := asset.id],
                assets[asset.code := ready], assetIDs[asset.id := ready], assetAliases[ready := asset.code]);
    }

    method MoveAsset(oldCode: string, code: string, current: string)
      requires Valid() && oldCode in assets && assets[oldCode] == current && code !in assets
      modifies this
      ensures Valid()
      ensures View() == old(View()).With(Assets, (old(assetBook) - {oldCode})[code := old(assetBook)[oldCode]])
    {
      RenameAssetMirrored(assetBook, assets, assetIDs, assetAliases, oldCode, code);
      SetAssets((assetBook - {oldCode})[code := assetBook[oldCode]],
                (assets - {oldCode})[code := current], assetIDs, assetAliases[current := code]);
    }

    method DropAsset(asset: Entry, text: string)
      requires Valid() && asset.code in assets && assets[asset.code] == text && assetBook[asset.code] == asset.id
      modifies this
      ensures Valid() && View() == old(View()).With(Assets, old(assetBook) - {asset.code})
    {
      RemoveAssetMirrored(assetBook, assets, assetIDs, assetAliases, asset.code);
      SetAssets(assetBook - {asset.code}, assets - {asset.code}, assetIDs - {asset.id}, assetAliases - {text});
    }

    method AddAsset(asset: Entry) returns (error: Option<Error>)
      requires Valid()
      modifies this
      ensures Valid()
      ensures Performed(Assets, Add(asset), error, old(View()), View())
    {
      if !ValidId(Assets, asset) {
        return Some(Invalid);
      }
      var ready := DecimalText(asset.id);
      TextPublished(assetBook, assets, assetIDs, assetAliases, asset.id);
      if asset.code in assets {
        return Some(AlreadyExists);
      }
      if ready in assetAliases {
        return Some(Invalid);
      }
      if asset.id in assetIDs {
        return Some(Invalid);
      }
      StoreAsset(asset, ready);
      return None;
    }

    method RenameAsset(oldCode: string, asset: Entry) returns (error: Option<Error>)
      requires Valid()
      modifies this
      ensures Valid()
      ensures Performed(Assets, Rename(oldCode, asset), error, old(View()), View())
    {
      if !ValidId(Assets, asset) {
        return Some(Invalid);
      }
      if oldCode !in assets {
        return Some(Invalid);
      }
      var current := assets[oldCode];
      TextIdentifies(assetBook[oldCode], asset.id);
      if current != DecimalText(asset.id) {
        return Some(Invalid);
      }
      if oldCode == asset.code {
        return None;
      }
      if asset.code in assets {
        return Some(AlreadyExists);
      }
      if current !in assetAliases || assetAliases[current] != oldCode {
        assert false; // refused as corrupt; the maps always agree, so this cannot happen
      }
      MoveAsset(oldCode, asset.code, current);
      return None;
    }

    method RemoveAsset(asset: Entry) returns (error: Option<Error>)
      requires Valid()
      modifies this
      ensures Valid()
      ensures Performed(Assets, Remove(asset), error, old(View()), View())
    {
      if !ValidId(Assets, asset) {
        return Some(Invalid);
      }
      var expectedID := DecimalText(asset.id);
      if asset.code !in assets {
        return Some(Invalid);
      }
      TextIdentifies(assetBook[asset.code], asset.id);
      if assets[asset.code] != expectedID {
        return Some(Invalid);
      }
      if expectedID !in assetAliases || assetAliases[expectedID] != asset.code {
        assert false; // refused as corrupt; the maps always agree, so this cannot happen
      }
      DropAsset(asset, expectedID);
      return None;
    }

    // Groups.

    method AddGroup(group: Entry) returns (error: Option<Error>)
      requires Valid()
      modifies this
      ensures Valid()
      ensures Performed(Groups, Add(group), error, old(View()), View())
    {
      if !ValidId(Groups, group) {
        return Some(Invalid);
      }
      MirroredIds(Groups, groups, groupAliases);
      if group.code in groups {
        return Some(AlreadyExists);
      }
      if group.id in groupAliases {
        return Some(Invalid);
      }
      AddMirrored(Groups, groups, groupAliases, group);
      groups := groups[group.code := group.id];
      groupAliases := groupAliases[group.id := group.code];
      return None;
    }

    method RenameGroup(oldCode: string, group: Entry) returns (error: Option<Error>)
      requires Valid()
      modifies this
      ensures Valid()
      ensures Performed(Groups, Rename(oldCode, group), error, old(View()), View())
    {
      if !ValidId(Groups, group) {
        return Some(Invalid);
      }
      if oldCode !in groups {
        return Some(Invalid);
      }
      var currentID := groups[oldCode];
      if currentID != group.id {
        return Some(Invalid);
      }
      if oldCode == group.code {
        return None;
      }
      if group.code in groups {
        return Some(AlreadyExists);
      }
      RenameMirrored(Groups, groups, groupAliases, oldCode, group);
      groups := groups - {oldCode};
      groups := groups[group.code := currentID];
      groupAliases := groupAliases[currentID := group.code];
      return None;
    }

    method RemoveGroup(group: Entry) returns (error: Option<Error>)
      requires Valid()
      modifies this
      ensures Valid()
      ensures Performed(Groups, Remove(group), error, old(View()), View())
    {
      if !ValidId(Groups, group) {
        return Some(Invalid);
      }
      if group.code !in groups {
        return Some(Invalid);
      }
      var currentID := groups[group.code];
      if currentID != group.id {
        return Some(Invalid);
      }
      RemoveMirrored(Groups, groups, groupAliases, group);
      groups := groups - {group.code};
      groupAliases := groupAliases - {currentID};
      return None;
    }
  }

  // A dictionary and the inverse map kept beside it.
  predicate Mirrors(kind: Kind, b: Book, aliases: map<nat, string>) {
    && ValidIds(kind, b)
    && (forall c | c in b :: b[c] in aliases && aliases[b[c]] == c)
    && (forall id | id in aliases :: aliases[id] in b && b[aliases[id]] == id)
  }

  // The three asset maps encode one dictionary: code to text, id to text, text to code.
  predicate AssetMapsAgree(
    b: Book, assets: map<string, string>, ids: map<nat, string>, aliases: map<string, string>)
  {
    && ValidIds(Assets, b)
    && assets.Keys == b.Keys
    && ids.Keys == b.Values
    && (forall c | c in b :: assets[c] == ids[b[c]] && assets[c] in aliases && aliases[assets[c]] == c)
    && (forall text | text in aliases :: aliases[text] in b && assets[aliases[text]] == text)
  }

  // The text kept for an id is its decimal form.
  predicate DecimalTexts(ids: map<nat, string>) {
    forall id | id in ids :: ids[id] == DecimalText(id)
  }

  lemma MirroredIds(kind: Kind, b: Book, aliases: map<nat, string>)
    requires Mirrors(kind, b, aliases)
    ensures b.Values == aliases.Keys
  {
    forall id | id in aliases
      ensures id in b.Values
    {
      assert b[aliases[id]] == id;
    }
  }

  lemma CodeOfId(b: Book, assets: map<string, string>, ids: map<nat, string>, aliases: map<string, string>, id: nat)
    requires AssetMapsAgree(b, assets, ids, aliases) && id in ids
    ensures ids[id] in aliases && b[aliases[ids[id]]] == id
  {
    var c :| c in b && b[c] == id;
  }

  /** An id's text is taken exactly when the id is. */
  lemma TextPublished(b: Book, assets: map<string, string>, ids: map<nat, string>, aliases: map<string, string>, id: nat)
    requires AssetMapsAgree(b, assets, ids, aliases) && DecimalTexts(ids)
    ensures DecimalText(id) in aliases <==> id in b.Values
  {
    if DecimalText(id) in aliases {
      var code := aliases[DecimalText(id)];
      DecimalTextInjective(id, b[code]);
    }
    if id in ids {
      CodeOfId(b, assets, ids, aliases, id);
    }
  }

  lemma TextIdentifies(m: nat, n: nat)
    ensures DecimalText(m) == DecimalText(n) <==> m == n
  {
    if DecimalText(m) == DecimalText(n) {
      DecimalTextInjective(m, n);
    }
  }

  // Each change to a dictionary, mirrored on the maps that encode it.

  lemma AddMirrored(kind: Kind, b: Book, aliases: map<nat, string>, e: Entry)
    requires Mirrors(kind, b, aliases) && Step(kind, b, Add(e)).Ok?
    ensures Mirrors(kind, b[e.code := e.id], aliases[e.id := e.code])
  {
    MirroredIds(kind, b, aliases);
  }

  lemma RenameMirrored(kind: Kind, b: Book, aliases: map<nat, string>, oldCode: string, e: Entry)
    requires Mirrors(kind, b, aliases) && Step(kind, b, Rename(oldCode, e)).Ok? && oldCode != e.code
    ensures Mirrors(kind, (b - {oldCode})[e.code := e.id], aliases[e.id := e.code])
  {
    MirroredIds(kind, b, aliases);
  }

  lemma RemoveMirrored(kind: Kind, b: Book, aliases: map<nat, string>, e: Entry)
    requires Mirrors(kind, b, aliases) && Step(kind, b, Remove(e)).Ok?
    ensures Mirrors(kind, b - {e.code}, aliases - {e.id})
  {
    MirroredIds(kind, b, aliases);
  }

  lemma AddAssetMirrored(
    b: Book, assets: map<string, string>, ids: map<nat, string>, aliases: map<string, string>, e: Entry, text: string)
    requires AssetMapsAgree(b, assets, ids, aliases)
    requires ValidId(Assets, e) && e.code !in b && e.id !in ids && text !in aliases
    ensures AssetMapsAgree(b[e.code := e.id], assets[e.code := text], ids[e.id := text], aliases[text := e.code])
  {
    AddedValues(b, e);
  }

  lemma AddedValues(b: Book, e: Entry)
    requires e.code !in b
    ensures b[e.code := e.id].Values == b.Values + {e.id}
  {
    var after := b[e.code := e.id];
    assert after[e.code] == e.id;
    forall id | id in b.Values
      ensures id in after.Values
    {
      var c :| c in b && b[c] == id;
      assert after[c] == id;
    }
  }

  lemma RenameAssetMirrored(
    b: Book, assets: map<string, string>, ids: map<nat, string>, aliases: map<string, string>, oldCode: string, code: string)
    requires AssetMapsAgree(b, assets, ids, aliases) && oldCode in b && code !in b
    ensures
      AssetMapsAgree(
        (b - {oldCode})[code := b[oldCode]], (assets - {oldCode})[code := assets[oldCode]],
        ids, aliases[assets[oldCode] := code])
  {
    RenameKeepsId(Assets, b, oldCode, Entry(code, b[oldCode]));
  }

  lemma RemoveAssetMirrored(
    b: Book, assets: map<string, string>, ids: map<nat, string>, aliases: map<string, string>, code: string)
    requires AssetMapsAgree(b, assets, ids, aliases) && code in b
    ensures AssetMapsAgree(b - {code}, assets - {code}, ids - {b[code]}, aliases - {assets[code]})
  {
    var after := b - {code};
    forall id | id in b.Values && id != b[code]
      ensures id in after.Values
    {
      var c :| c in b && b[c] == id;
      assert after[c] == id;
    }
  }

  // What callers see of a resolver: its dictionary of each kind.
  datatype Dictionaries = Dictionaries(accounts: Book, assets: Book, groups: Book) {
    function Of(kind: Kind): Book {
      match kind
      case Accounts => accounts
      case Assets => assets
      case Groups => groups
    }

    function With(kind: Kind, b: Book): Dictionaries {
      match kind
      case Accounts => this.(accounts := b)
      case Assets => this.(assets := b)
      case Groups => this.(groups := b)
    }
  }

  // What a change reports: nil, or the error the dictionary refuses it with.
  function Refusal(outcome: Result<Book>): Option<Error> {
    match outcome
    case Ok(_) => None
    case Err(e) => Some(e)
  }

  // The whole effect of a call that should perform change on the kind's dictionary.
  predicate Performed(
    kind: Kind, change: Change, error: Option<Error>, before: Dictionaries, after: Dictionaries)
  {
    && error == Refusal(Step(kind, before.Of(kind), change))
    && after == before.With(kind, After(kind, before.Of(kind), change))
  }

  // The same through a handle; unset is what a handle without state reports for a valid entry.
  predicate Reported(
    hasState: bool, kind: Kind, change: Change, unset: Error, error: Option<Error>,
    before: Dictionaries, after: Dictionaries)
  {
    if hasState then Performed(kind, change, error, before, after)
    else error == Some(if ValidId(kind, change.entry) then unset else Invalid) && after == before
  }

  // A resolver is a handle on shared state; copying it copies the handle. A zero
  // value has no state yet.
  datatype IdResolver = IdResolver(shared: ResolverState?) {

    ghost predicate Valid()
      reads shared
    {
      shared != null ==> shared.Valid()
    }

    ghost function View(): Dictionaries
      reads shared
    {
      if shared == null then Dictionaries(map[], map[], map[]) else shared.View()
    }

    ghost function Dictionary(kind: Kind): Book
      reads shared
    {
      View().Of(kind)
    }

    // Lookups.

    method Account(code: string) returns (r: Result<nat>)
      requires Valid()
      ensures r == if code in Dictionary(Accounts) then Ok(Dictionary(Accounts)[code]) else Err(Invalid)
    {
      if shared == null || code !in shared.accounts {
        return Err(Invalid);
      }
      return Ok(shared.accounts[code]);
    }

    method AccountAlias(id: nat) returns (r: Result<string>)
      requires Valid()
      ensures r.Ok? ==> r.value in Dictionary(Accounts) && Dictionary(Accounts)[r.value] == id
      ensures r.Err? ==> r.error == Internal && id !in Dictionary(Accounts).Values
    {
      if shared == null || id !in shared.accountAliases {
        return Err(Internal);
      }
      return Ok(shared.accountAliases[id]);
    }

    method Asset(code: string) returns (r: Result<string>)
      requires Valid()
      ensures r == if code in Dictionary(Assets) then Ok(DecimalText(Dictionary(Assets)[code])) else Err(Invalid)
    {
      if shared == null || code !in shared.assets {
        return Err(Invalid);
      }
      return Ok(shared.assets[code]);
    }

    method AssetByID(id: nat) returns (r: Result<string>)
      requires Valid()
      ensures r == if id in Dictionary(Assets).Values then Ok(DecimalText(id)) else Err(NotFound)
    {
      if shared == null {
        return Err(NotFound);
      }
      if id !in shared.assetIDs {
        return Err(NotFound);
      }
      return Ok(shared.assetIDs[id]);
    }

    method AssetAlias(text: string) returns (r: Result<string>)
      requires Valid()
      ensures r.Ok? ==> r.value in Dictionary(Assets) && DecimalText(Dictionary(Assets)[r.value]) == text
      ensures r.Err? ==> r.error == Internal && forall c | c in Dictionary(Assets) :: DecimalText(Dictionary(Assets)[c]) != text
    {
      if shared == null || text !in shared.assetAliases {
        return Err(Internal);
      }
      return Ok(shared.assetAliases[text]);
    }

    method Group(code: string) returns (r: Result<nat>)
      requires Valid()
      ensures r == if code in Dictionary(Groups) then Ok(Dictionary(Groups)[code]) else Err(Invalid)
    {
      if shared == null || code !in shared.groups {
        return Err(Invalid);
      }
      return Ok(shared.groups[code]);
    }

    method AddAccount(account: Entry) returns (error: Option<Error>)
      requires Valid()
      modifies shared
      ensures Valid()
      ensures Reported(shared != null, Accounts, Add(account), Internal, error, old(View()), View())
    {
      if shared == null {
        return Some(if ValidId(Accounts, account) then Internal else Invalid);
      }
      error := shared.AddAccount(account);
    }

    method RenameAccount(oldCode: string, account: Entry) returns (error: Option<Error>)
      requires Valid()
      modifies shared
      ensures Valid()
      ensures Reported(shared != null, Accounts, Rename(oldCode, account), Invalid, error, old(View()), View())
    {
      if shared == null {
        return Some(Invalid);
      }
      error := shared.RenameAccount(oldCode, account);
    }

    method AddAsset(asset: Entry) returns (error: Option<Error>)
      requires Valid()
      modifies shared
      ensures Valid()
      ensures Reported(shared != null, Assets, Add(asset), Internal, error, old(View()), View())
    {
      if shared == null {
        return Some(if ValidId(Assets, asset) then Internal else Invalid);
      }
      error := shared.AddAsset(asset);
    }

    method RenameAsset(oldCode: string, asset: Entry) returns (error: Option<Error>)
      requires Valid()
      modifies shared
      ensures Valid()
      ensures Reported(shared != null, Assets, Rename(oldCode, asset), Internal, error, old(View()), View())
    {
      if shared == null {
        return Some(if ValidId(Assets, asset) then Internal else Invalid);
      }
      error := shared.RenameAsset(oldCode, asset);
    }

    method RemoveAsset(asset: Entry) returns (error: Option<Error>)
      requires Valid()
      modifies shared
      ensures Valid()
      ensures Reported(shared != null, Assets, Remove(asset), Internal, error, old(View()), View())
    {
      if shared == null {
        return Some(if ValidId(Assets, asset) then Internal else Invalid);
      }
      error := shared.RemoveAsset(asset);
    }

    method AddGroup(group: Entry) returns (error: Option<Error>)
      requires Valid()
      modifies shared
      ensures Valid()
      ensures Reported(shared != null, Groups, Add(group), Internal, error, old(View()), View())
    {
      if shared == null {
        return Some(if ValidId(Groups, group) then Internal else Invalid);
      }
      error := shared.AddGroup(group);
    }

    method RenameGroup(oldCode: string, group: Entry) returns (error: Option<Error>)
      requires Valid()
      modifies shared
      ensures Valid()
      ensures Reported(shared != null, Groups, Rename(oldCode, group), Invalid, error, old(View()), View())
    {
      if shared == null {
        return Some(Invalid);
      }
      error := shared.RenameGroup(oldCode, group);
    }

    method RemoveGroup(group: Entry) returns (error: Option<Error>)
      requires Valid()
      modifies shared
      ensures Valid()
      ensures Reported(shared != null, Groups, Remove(group), Invalid, error, old(View()), View())
    {
      if shared == null {
        return Some(Invalid);
      }
      error := shared.RemoveGroup(group);
    }
  }

  lemma {:induction false} PublishStops(kind: Kind, entries: seq<Entry>, n: nat)
    requires n <= |entries| && Publish(kind, entries[..n]).Err?
    ensures Publish(kind, entries) == Publish(kind, entries[..n])
    decreases |entries| - n
  {
    if n < |entries| {
      assert entries[..n + 1][..n] == entries[..n];
      PublishStops(kind, entries, n + 1);
    } else {
      assert entries[..n] == entries;
    }
  }

  method PublishAccounts(resolver: IdResolver, accounts: seq<Entry>) returns (error: Option<Error>)
    requires resolver.shared != null && resolver.Valid() && resolver.Dictionary(Accounts) == map[]
    modifies resolver.shared
    ensures resolver.Valid()
    ensures error == Refusal(Publish(Accounts, accounts))
    ensures error == None ==> resolver.View() == old(resolver.View()).With(Accounts, Publish(Accounts, accounts).value)
  {
    for i := 0 to |accounts|
      invariant resolver.Valid() && Publish(Accounts, accounts[..i]).Ok?
      invariant resolver.View() == old(resolver.View()).With(Accounts, Publish(Accounts, accounts[..i]).value)
    {
      assert accounts[..i + 1][..i] == accounts[..i];
      error := resolver.AddAccount(accounts[i]);
      if error.Some? {
        PublishStops(Accounts, accounts, i + 1);
        return;
      }
    }
    assert accounts[..|accounts|] == accounts;
    return None;
  }

  method PublishGroups(resolver: IdResolver, groups: seq<Entry>) returns (error: Option<Error>)
    requires resolver.shared != null && resolver.Valid() && resolver.Dictionary(Groups) == map[]
    modifies resolver.shared
    ensures resolver.Valid()
    ensures error == Refusal(Publish(Groups, groups))
    ensures error == None ==> resolver.View() == old(resolver.View()).With(Groups, Publish(Groups, groups).value)
  {
    for i := 0 to |groups|
      invariant resolver.Valid() && Publish(Groups, groups[..i]).Ok?
      invariant resolver.View() == old(resolver.View()).With(Groups, Publish(Groups, groups[..i]).value)
    {
      assert groups[..i + 1][..i] == groups[..i];
      error := resolver.AddGroup(groups[i]);
      if error.Some? {
        PublishStops(Groups, groups, i + 1);
        return;
      }
    }
    assert groups[..|groups|] == groups;
    return None;
  }

  method PublishAssets(resolver: IdResolver, assets: seq<Entry>) returns (error: Option<Error>)
    requires resolver.shared != null && resolver.Valid() && resolver.Dictionary(Assets) == map[]
    modifies resolver.shared
    ensures resolver.Valid()
    ensures error == Refusal(Publish(Assets, assets))
    ensures error == None ==> resolver.View() == old(resolver.View()).With(Assets, Publish(Assets, assets).value)
  {
    for i := 0 to |assets|
      invariant resolver.Valid() && Publish(Assets, assets[..i]).Ok?
      invariant resolver.View() == old(resolver.View()).With(Assets, Publish(Assets, assets[..i]).value)
    {
      assert assets[..i + 1][..i] == assets[..i];
      error := resolver.AddAsset(assets[i]);
      if error.Some? {
        PublishStops(Assets, assets, i + 1);
        return;
      }
    }
    assert assets[..|assets|] == assets;
    return None;
  }

  /** newIDResolver: a resolver over fresh state holding exactly the snapshot, or no resolver at all. */
  method NewIdResolver(accounts: seq<Entry>, groups: seq<Entry>, assets: seq<Entry>) returns (r: Result<IdResolver>)
    ensures r.Ok? <==>
              Publishable(Accounts, accounts) && Publishable(Groups, groups) && Publishable(Assets, assets)
    ensures r.Ok? ==> r.value.shared != null && fresh(r.value.shared) && r.value.Valid()
    ensures r.Ok? ==>
              && Lists(accounts, r.value.Dictionary(Accounts))
              && Lists(groups, r.value.Dictionary(Groups))
              && Lists(assets, r.value.Dictionary(Assets))
  {
    PublishExactly(Accounts, accounts);
    PublishExactly(Groups, groups);
    PublishExactly(Assets, assets);
    var state := new ResolverState();
    var resolver := IdResolver(state);
    var error := PublishAccounts(resolver, accounts);
    if error.Some? {
      return Err(error.value);
    }
    error := PublishGroups(resolver, groups);
    if error.Some? {
      return Err(error.value);
    }
    error := PublishAssets(resolver, assets);
    if error.Some? {
      return Err(error.value);
    }
    return Ok(resolver);
  }

  /** Copies of a resolver observe one state: what one publishes, another resolves. */
  method PublishThenResolveThroughCopy(resolver: IdResolver, copied: IdResolver, asset: Entry) returns (r: Result<string>)
    requires copied == resolver && resolver.shared != null && resolver.Valid()
    requires Step(Assets, resolver.Dictionary(Assets), Add(asset)).Ok?
    modifies resolver.shared
    ensures r == Ok(DecimalText(asset.id))
  {
    var _ := resolver.AddAsset(asset);
    r := copied.Asset(asset.code);
  }
}
