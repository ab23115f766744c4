/** The eight entry points of the digital-rights contract as one dispatch
    over the store, and sequences of invocations. An invocation that
    aborts leaves the store as it was, as the host rolls its writes back. */
module Contract {
  import opened Records
  import opened Storage
  import opened AssetRegistry
  import opened LicenseRegistry
  import opened OwnershipQuery

  /** One invocation of an entry point, with its arguments. */
  datatype Call =
    | CreateAssetCall(title: string, description: string, owner: string)
    | CreateLicenseCall(assetId: nat, licensee: string, usageRights: string,
                        royaltyPercentage: u32, expirationTime: u64)
    | ApproveLicenseCall(assetId: nat)
    | ExpireLicenseCall(assetId: nat)
    | ViewAssetCall(assetId: nat)
    | ViewLicenseCall(assetId: nat)
    | ViewAssetsByOwnerCall(owner: string)
    | AssetCountCall
  {
    /** The entry points that only read the store. */
    predicate IsQuery() {
      ViewAssetCall? || ViewLicenseCall? || ViewAssetsByOwnerCall? || AssetCountCall?
    }
  }

  /** What an invocation gives back to its caller. */
  datatype Response =
    | NewAssetId(id: nat)
    | Done
    | AssetRecord(asset: DigitalAsset)
    | LicenseRecord(license: License)
    | AssetList(assets: seq<DigitalAsset>)
    | Count(count: nat)
    | Rejected(reason: Abort)

  /** Runs one invocation against the store. */
  function Invoke(s: Store, c: Call): (r: Reply<Response>)
    ensures c.IsQuery() ==> r.store == s
    ensures r.value.Rejected? ==> r.store == s
    ensures r.value.Rejected? <==>
              || (c.ApproveLicenseCall? && ViewLicense(s, c.assetId).isActive)
              || (c.ExpireLicenseCall? && !ViewLicense(s, c.assetId).isActive)
    ensures r.value.Rejected? ==> r.value.reason == (if c.ApproveLicenseCall? then AlreadyActive else AlreadyInactive)
    ensures c.CreateAssetCall? ==> r.value == NewAssetId(AssetCount(s) + 1)
    ensures AssetCount(r.store) >= AssetCount(s)
    ensures forall id: nat :: id <= AssetCount(s) ==> ViewAsset(r.store, id) == ViewAsset(s, id)
    ensures s.licenses.Keys <= r.store.licenses.Keys
    ensures !c.CreateLicenseCall? ==> forall id :: SameTerms(ViewLicense(r.store, id), ViewLicense(s, id))
  {
    match c
    case CreateAssetCall(title, description, owner) =>
      var created := CreateAsset(s, title, description, owner);
      Reply(created.store, NewAssetId(created.value))
    case CreateLicenseCall(id, licensee, usageRights, royaltyPercentage, expirationTime) =>
      Reply(CreateLicense(s, id, licensee, usageRights, royaltyPercentage, expirationTime), Done)
    case ApproveLicenseCall(id) =>
      (match ApproveLicense(s, id)
       case Ok(s') => Reply(s', Done)
       case Aborted(reason) => Reply(s, Rejected(reason)))
    case ExpireLicenseCall(id) =>
      (match ExpireLicense(s, id)
       case Ok(s') => Reply(s', Done)
       case Aborted(reason) => Reply(s, Rejected(reason)))
    case ViewAssetCall(id) => Reply(s, AssetRecord(ViewAsset(s, id)))
    case ViewLicenseCall(id) => Reply(s, LicenseRecord(ViewLicense(s, id)))
    case ViewAssetsByOwnerCall(owner) => Reply(s, AssetList(AssetsByOwner(s, owner)))
    case AssetCountCall => Reply(s, Count(AssetCount(s)))
  }

  /** Runs invocations one after another; one response per invocation. */
  function Run(s: Store, calls: seq<Call>): (r: Reply<seq<Response>>)
    decreases |calls|
    ensures |r.value| == |calls|
    ensures AssetCount(r.store) >= AssetCount(s)
  {
    if calls == [] then Reply(s, [])
    else
      var first := Invoke(s, calls[0]);
      var rest := Run(first.store, calls[1..]);
      Reply(rest.store, [first.value] + rest.value)
  }

  /** Every invocation keeps the store consistent. */
  lemma InvokeKeepsConsistent(s: Store, c: Call)
    requires Consistent(s)
    ensures Consistent(Invoke(s, c).store)
  {
    if c.CreateAssetCall? {
      CreateAssetKeepsConsistent(s, c.title, c.description, c.owner);
    }
  }

  /** Every sequence of invocations keeps the store consistent. */
  lemma {:induction false} RunKeepsConsistent(s: Store, calls: seq<Call>)
    requires Consistent(s)
    decreases |calls|
    ensures Consistent(Run(s, calls).store)
  {
    if calls != [] {
      InvokeKeepsConsistent(s, calls[0]);
      RunKeepsConsistent(Invoke(s, calls[0]).store, calls[1..]);
    }
  }

  /** Every store the contract can reach from deployment is consistent. */
  lemma ReachableIsConsistent(calls: seq<Call>)
    ensures Consistent(Run(Fresh, calls).store)
  {
    FreshIsConsistent();
    RunKeepsConsistent(Fresh, calls);
  }

  /** n successive asset creations return count+1, count+2, ..., count+n
      in call order and leave the counter at count+n; from a fresh store
      that is 1, 2, ..., n. */
  lemma {:induction false} CreationsNumberDensely(s: Store, calls: seq<Call>)
    requires forall k :: 0 <= k < |calls| ==> calls[k].CreateAssetCall?
    decreases |calls|
    ensures var r := Run(s, calls);
            && AssetCount(r.store) == AssetCount(s) + |calls|
            && forall k :: 0 <= k < |calls| ==> r.value[k] == NewAssetId(AssetCount(s) + k + 1)
  {
    if calls != [] {
      var first := Invoke(s, calls[0]);
      CreationsNumberDensely(first.store, calls[1..]);
      var rest := Run(first.store, calls[1..]);
      forall k | 0 <= k < |calls|
        ensures Run(s, calls).value[k] == NewAssetId(AssetCount(s) + k + 1)
      {
        if k > 0 {
          assert Run(s, calls).value[k] == rest.value[k - 1];
        }
      }
    }
  }

  /** An asset, once created, is seen unchanged by every later lookup. */
  lemma {:induction false} AssetsAreImmutable(s: Store, calls: seq<Call>, id: nat)
    requires 1 <= id <= AssetCount(s)
    decreases |calls|
    ensures ViewAsset(Run(s, calls).store, id) == ViewAsset(s, id)
  {
    if calls != [] {
      AssetsAreImmutable(Invoke(s, calls[0]).store, calls[1..], id);
    }
  }
}
