/** Asset creation and lookup, and the dense asset-id counter. */
module AssetRegistry {
  import opened Records
  import opened Storage

  /** `asset_count`: the counter, or 0 while the counter key is unset. */
  function AssetCount(s: Store): nat {
    s.counter.ValueOr(0)
  }

  /** `view_asset`: the stored asset, or the sentinel on a miss. */
  function ViewAsset(s: Store, id: nat): DigitalAsset {
    if id in s.assets then s.assets[id] else AssetSentinel
  }

  /** `create_asset`: takes the next id, stores the asset under it and
      advances the counter to it. No field is validated. */
  function CreateAsset(s: Store, title: string, description: string, owner: string): (r: Reply<nat>)
    ensures r.value == AssetCount(s) + 1
    ensures AssetCount(r.store) == r.value
    ensures ViewAsset(r.store, r.value) == DigitalAsset(r.value, title, description, owner)
    ensures forall id :: id != r.value ==> ViewAsset(r.store, id) == ViewAsset(s, id)
    ensures r.store.assets.Keys == s.assets.Keys + {r.value}
    ensures r.store.licenses == s.licenses
  {
    var id := AssetCount(s) + 1;
    var asset := DigitalAsset(id, title, description, owner);
    Reply(s.(assets := s.assets[id := asset], counter := Set(id)), id)
  }

  /** The shape every store built by the contract has: ids 1 .. count hold
      assets, each stored under its own id, and no other id holds one. */
  ghost predicate Consistent(s: Store) {
    && (forall id :: id in s.assets <==> 1 <= id <= AssetCount(s))
    && (forall id :: id in s.assets ==> s.assets[id].assetId == id)
  }

  /** A fresh store is consistent and counts no assets. */
  lemma FreshIsConsistent()
    ensures Consistent(Fresh)
    ensures AssetCount(Fresh) == 0
    ensures forall id :: ViewAsset(Fresh, id) == AssetSentinel
  {
  }

  /** Creating an asset keeps the store consistent. */
  lemma CreateAssetKeepsConsistent(s: Store, title: string, description: string, owner: string)
    requires Consistent(s)
    ensures Consistent(CreateAsset(s, title, description, owner).store)
  {
  }

  /** On a consistent store, a lookup yields the sentinel exactly for id 0
      and the ids beyond the counter; every other id yields the asset that
      carries that id. */
  lemma ViewAssetOnConsistent(s: Store, id: nat)
    requires Consistent(s)
    ensures ViewAsset(s, id) == AssetSentinel <==> (id == 0 || id > AssetCount(s))
    ensures id <= AssetCount(s) ==> ViewAsset(s, id).assetId == id
  {
    if 1 <= id <= AssetCount(s) {
      assert id in s.assets;
    }
  }
}
