/** The owner query: a linear scan of asset ids through `ViewAsset`, with no
    index of its own. The contract scans ids 0 .. count-1; ids 1 .. count,
    the ids that actually hold assets, are what the scan evidently meant to
    visit. Both are modelled on one scan over an id range. */
module OwnershipQuery {
  import opened Records
  import opened Storage
  import opened AssetRegistry

  /** The lookups of ids lo .. hi-1 whose owner is `owner`, in visiting order. */
  function Scan(s: Store, owner: string, lo: nat, hi: nat): (r: seq<DigitalAsset>)
    decreases hi - lo
    ensures forall a :: a in r ==> a.owner == owner
    ensures |r| <= if hi <= lo then 0 else hi - lo
  {
    if hi <= lo then []
    else
      var a := ViewAsset(s, hi - 1);
      Scan(s, owner, lo, hi - 1) + (if a.owner == owner then [a] else [])
  }

  /** On any store, an asset is listed exactly when some visited id looks
      it up and its owner matches. */
  lemma {:induction false} ScanMembers(s: Store, owner: string, lo: nat, hi: nat, a: DigitalAsset)
    decreases hi - lo
    ensures a in Scan(s, owner, lo, hi) <==> a.owner == owner && exists i :: lo <= i < hi && ViewAsset(s, i) == a
  {
    if hi > lo {
      ScanMembers(s, owner, lo, hi - 1, a);
      if a in Scan(s, owner, lo, hi) && a !in Scan(s, owner, lo, hi - 1) {
        assert ViewAsset(s, hi - 1) == a;
      }
    }
  }

  /** On a consistent store whose visited ids stay within 0 .. count, every
      listed asset carries the id it was found under, the listing ascends
      strictly by id, and it holds exactly the owner's lookups in range. */
  lemma {:induction false} ScanOnConsistent(s: Store, owner: string, lo: nat, hi: nat)
    requires Consistent(s)
    requires hi <= AssetCount(s) + 1
    decreases hi - lo
    ensures var r := Scan(s, owner, lo, hi);
            && (forall k :: 0 <= k < |r| ==> lo <= r[k].assetId < hi)
            && (forall j, k :: 0 <= j < k < |r| ==> r[j].assetId < r[k].assetId)
            && (forall a :: a in r <==> a.owner == owner && lo <= a.assetId < hi && ViewAsset(s, a.assetId) == a)
  {
    if hi > lo {
      ScanOnConsistent(s, owner, lo, hi - 1);
      ViewAssetOnConsistent(s, hi - 1);
      forall a
        ensures a in Scan(s, owner, lo, hi) <==> a.owner == owner && lo <= a.assetId < hi && ViewAsset(s, a.assetId) == a
      {
        ScanMembers(s, owner, lo, hi, a);
        if a.owner == owner && lo <= a.assetId < hi && ViewAsset(s, a.assetId) == a {
          assert ViewAsset(s, a.assetId) == a;
        } else if a in Scan(s, owner, lo, hi) {
          var i :| lo <= i < hi && ViewAsset(s, i) == a;
          ViewAssetOnConsistent(s, i);
        }
      }
    }
  }

  /** What `view_assets_by_owner` returns as written: the scan of ids
      0 .. count-1. */
  function AssetsByOwner(s: Store, owner: string): (r: seq<DigitalAsset>)
    ensures forall a :: a in r ==> a.owner == owner
  {
    Scan(s, owner, 0, AssetCount(s))
  }

  /** The owner query with the scan it evidently intended: ids 1 .. count. */
  function OwnedAssets(s: Store, owner: string): (r: seq<DigitalAsset>)
    ensures forall a :: a in r ==> a.owner == owner
  {
    Scan(s, owner, 1, AssetCount(s) + 1)
  }

  /** `view_assets_by_owner`, as written: the loop over ids 0 .. count-1. */
  method ViewAssetsByOwner(s: Store, owner: string) returns (r: seq<DigitalAsset>)
    ensures r == AssetsByOwner(s, owner)
    ensures forall a :: a in r ==> a.owner == owner
  {
    r := [];
    var n := AssetCount(s);
    for i := 0 to n
      invariant r == Scan(s, owner, 0, i)
    {
      var a := ViewAsset(s, i);
      if a.owner == owner {
        r := r + [a];
      }
    }
  }

  /** The owner query with its loop over ids 1 .. count. */
  method ViewOwnedAssets(s: Store, owner: string) returns (r: seq<DigitalAsset>)
    ensures r == OwnedAssets(s, owner)
    ensures forall a :: a in r ==> a.owner == owner
  {
    r := [];
    var n := AssetCount(s);
    for i := 1 to n + 1
      invariant r == Scan(s, owner, 1, i)
    {
      var a := ViewAsset(s, i);
      if a.owner == owner {
        r := r + [a];
      }
    }
  }

  /** As written, on a consistent store the query lists, in ascending id
      order, the owner's assets with ids below the counter, and the
      sentinel (id 0) when the owner is "Unknown" and some asset exists. */
  lemma AssetsByOwnerOnConsistent(s: Store, owner: string)
    requires Consistent(s)
    ensures var r := AssetsByOwner(s, owner);
            && (forall j, k :: 0 <= j < k < |r| ==> r[j].assetId < r[k].assetId)
            && (forall a :: a in r <==>
                  || (a == AssetSentinel && owner == Unknown && AssetCount(s) > 0)
                  || (a.owner == owner && a.assetId in s.assets && a.assetId < AssetCount(s) && s.assets[a.assetId] == a))
  {
    ScanOnConsistent(s, owner, 0, AssetCount(s));
    forall a
      ensures a in AssetsByOwner(s, owner) <==>
                  || (a == AssetSentinel && owner == Unknown && AssetCount(s) > 0)
                  || (a.owner == owner && a.assetId in s.assets && a.assetId < AssetCount(s) && s.assets[a.assetId] == a)
    {
      ViewAssetOnConsistent(s, a.assetId);
    }
  }

  /** The intended query on a consistent store lists, in ascending id
      order, exactly the stored assets whose owner is `owner`. */
  lemma OwnedAssetsListsExactlyOwned(s: Store, owner: string)
    requires Consistent(s)
    ensures var r := OwnedAssets(s, owner);
            && (forall j, k :: 0 <= j < k < |r| ==> r[j].assetId < r[k].assetId)
            && (forall a :: a in r <==> a.owner == owner && a.assetId in s.assets && s.assets[a.assetId] == a)
  {
    ScanOnConsistent(s, owner, 1, AssetCount(s) + 1);
  }

  /** As written, the asset just created is never listed for its owner. */
  lemma NewestAssetNeverListed(s: Store, title: string, description: string, owner: string)
    requires Consistent(s)
    ensures var c := CreateAsset(s, title, description, owner);
            DigitalAsset(c.value, title, description, owner) !in AssetsByOwner(c.store, owner)
  {
    var c := CreateAsset(s, title, description, owner);
    CreateAssetKeepsConsistent(s, title, description, owner);
    ScanOnConsistent(c.store, owner, 0, AssetCount(c.store));
  }

  /** The intended query does list the asset just created. */
  lemma NewestAssetListedByIntendedQuery(s: Store, title: string, description: string, owner: string)
    requires Consistent(s)
    ensures var c := CreateAsset(s, title, description, owner);
            DigitalAsset(c.value, title, description, owner) in OwnedAssets(c.store, owner)
  {
    var c := CreateAsset(s, title, description, owner);
    CreateAssetKeepsConsistent(s, title, description, owner);
    OwnedAssetsListsExactlyOwned(c.store, owner);
  }

  /** Assets made for "alice", "bob" and "alice" on a fresh store: as
      written the query lists only the first; the intended query lists both. */
  lemma AliceBobAlice()
    ensures var s1 := CreateAsset(Fresh, "t1", "d1", "alice").store;
            var s2 := CreateAsset(s1, "t2", "d2", "bob").store;
            var s3 := CreateAsset(s2, "t3", "d3", "alice").store;
            && AssetsByOwner(s3, "alice") == [DigitalAsset(1, "t1", "d1", "alice")]
            && OwnedAssets(s3, "alice") == [DigitalAsset(1, "t1", "d1", "alice"), DigitalAsset(3, "t3", "d3", "alice")]
  {
    var s1 := CreateAsset(Fresh, "t1", "d1", "alice").store;
    var s2 := CreateAsset(s1, "t2", "d2", "bob").store;
    var s3 := CreateAsset(s2, "t3", "d3", "alice").store;
    assert ViewAsset(s3, 0) == AssetSentinel;
    assert ViewAsset(s3, 2).owner == "bob";
    assert Scan(s3, "alice", 0, 3) == [DigitalAsset(1, "t1", "d1", "alice")];
    assert Scan(s3, "alice", 1, 4) == [DigitalAsset(1, "t1", "d1", "alice"), DigitalAsset(3, "t3", "d3", "alice")];
  }
}
