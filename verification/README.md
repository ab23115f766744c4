# Digital rights registry, modelled in Dafny

A model of `DigitalRightsContract`, a Soroban smart contract that registers
digital assets and attaches one usage license to each asset id. The contract
is a small state machine over the host's instance storage. This model makes
that storage an immutable value (`Storage.Store`). It holds the asset map,
the license map and the `AST_CNT` counter, which may be unset. Every entry point is a
pure function from a store to a new store and a reply.

- `records.dfy`: `DigitalAsset`, `License`, the two sentinel records that
  lookups return on a miss, and the abort kinds `AlreadyActive` and
  `AlreadyInactive`.
- `storage.dfy`: the store value, the `AST_CNT` counter key (unset or set), and the fresh (empty) store.
- `asset_registry.dfy`: `create_asset`, `view_asset` and `asset_count`,
  plus `Consistent`. This is the shape every reachable store has: ids
  1..count hold assets, and each asset is stored under its own id.
- `license_registry.dfy`: `create_license`, `approve_license`,
  `expire_license` and `view_license`.
- `ownership_query.dfy`: `view_assets_by_owner` as written, a loop over
  ids 0..count-1. Next to it is the query the scan evidently intended, over
  ids 1..count. Both are built on one range scan.
- `contract.dfy`: the eight entry points as one dispatch (`Invoke`), runs
  of many invocations, and the whole-run properties. These are dense ids,
  reachable stores are consistent, and assets are immutable.

An abort (a `panic!` in the contract) becomes `Aborted(reason)` and carries
no store, because the host rolls back the invocation's writes. At the
dispatch level an aborted call returns the store it was given.

Two behaviours of the code are worth knowing:
- The owner scan at `contracts/hello_world/src/lib.rs:128` loops over
  ids 0..count-1. Its comment at line 124 says it views all assets of the
  given owner, but the newest asset has id count and is never visited.
  See Findings.
- `approve_license` on an id that has no license reads the sentinel license
  (lines 115-121), sets its active flag and stores it (lines 79-81). The id
  then holds an active license whose licensee is "Unknown" and whose rights
  are "Not Found". The model keeps this behaviour
  (`LicenseRegistry.ApproveUnlicensedPersistsSentinel`).

## Model

| member | source | states |
|---|---|---|
| AssetRegistry.CreateAsset | contracts/hello_world/src/lib.rs:34-52 | the returned id is the old count plus one, and the counter now equals it; a lookup of that id gives the new asset with exactly the given title, description and owner; every other id looks up as before; the asset keys gain only the new id; licenses are untouched |
| AssetRegistry.FreshIsConsistent | contracts/hello_world/src/lib.rs:139-142 | on a fresh store `asset_count` is 0, every asset lookup yields the sentinel, and the store is consistent |
| AssetRegistry.CreateAssetKeepsConsistent | contracts/hello_world/src/lib.rs:37-49 | creating an asset keeps ids 1..count exactly the asset keys, each asset stored under its own id |
| AssetRegistry.ViewAssetOnConsistent | contracts/hello_world/src/lib.rs:100-109 | on a consistent store the lookup yields the sentinel exactly for id 0 and ids above the count; every id from 1 to the count yields an asset carrying that id |
| LicenseRegistry.CreateLicense | contracts/hello_world/src/lib.rs:55-73 | afterwards the license lookup of the id gives the given terms, active, whatever was there before; other ids' licenses, all assets and the counter are unchanged |
| LicenseRegistry.WriteStatus | contracts/hello_world/src/lib.rs:79-81 | persists the current (or sentinel) license of the id with the requested active flag; its terms and other ids' licenses are unchanged |
| LicenseRegistry.ApproveLicense | contracts/hello_world/src/lib.rs:76-85 | aborts with AlreadyActive if and only if the current (or sentinel) license is active; otherwise the stored license is the previous one with only the flag set, a record now exists for the id, and nothing else changes |
| LicenseRegistry.ExpireLicense | contracts/hello_world/src/lib.rs:88-97 | aborts with AlreadyInactive if and only if the current (or sentinel) license is inactive, which includes an unlicensed id; otherwise only the flag is cleared and no record is added |
| LicenseRegistry.ExpireThenApproveRestores | contracts/hello_world/src/lib.rs:88-97 | for an existing active license, expiring and then approving it succeeds and gives back exactly the original store |
| LicenseRegistry.ApproveThenExpireRestores | contracts/hello_world/src/lib.rs:76-85 | for an existing inactive license, approving and then expiring it succeeds and gives back exactly the original store |
| LicenseRegistry.ApproveUnlicensedPersistsSentinel | contracts/hello_world/src/lib.rs:76-81 | approving an unlicensed id stores the sentinel license marked active; expiring it again leaves the inactive sentinel stored, so the store differs from the original |
| LicenseRegistry.RepeatedTransitionsAbort | contracts/hello_world/src/lib.rs:79-95 | a successful approve followed by another approve aborts with AlreadyActive; likewise for expire with AlreadyInactive; approving a just-created license aborts |
| LicenseRegistry.CreateExpireApprove | contracts/hello_world/src/lib.rs:55-97 | create, expire and approve all succeed, and the license then shows the created terms, active again |
| OwnershipQuery.Scan | contracts/hello_world/src/lib.rs:128-133 | every asset the scan of an id range keeps has the queried owner, and there are at most as many as ids scanned |
| OwnershipQuery.ScanMembers | contracts/hello_world/src/lib.rs:128-133 | an asset is kept by the scan if and only if its owner matches and some scanned id looks it up |
| OwnershipQuery.ScanOnConsistent | contracts/hello_world/src/lib.rs:128-133 | on a consistent store, kept assets carry the id they were found under, ascend strictly by id, and are exactly the owner's lookups in range |
| OwnershipQuery.AssetsByOwner | contracts/hello_world/src/lib.rs:125-136 | the as-written query returns only assets whose owner equals the argument |
| OwnershipQuery.OwnedAssets | contracts/hello_world/src/lib.rs:125-136 | the intended query returns only assets whose owner equals the argument |
| OwnershipQuery.ViewAssetsByOwner | contracts/hello_world/src/lib.rs:125-136 | the loop over ids 0..count-1 returns the as-written scan, all owned by the argument |
| OwnershipQuery.ViewOwnedAssets | contracts/hello_world/src/lib.rs:125-136 | the loop over ids 1..count returns the intended scan, all owned by the argument |
| OwnershipQuery.AssetsByOwnerOnConsistent | contracts/hello_world/src/lib.rs:128-133 | as written, in ascending id order: the owner's stored assets with ids below the count, plus the sentinel exactly when the owner is "Unknown" and an asset exists |
| OwnershipQuery.OwnedAssetsListsExactlyOwned | contracts/hello_world/src/lib.rs:128-133 | the intended query lists, in ascending id order, exactly the stored assets of the owner |
| OwnershipQuery.NewestAssetNeverListed | contracts/hello_world/src/lib.rs:128 | as written, the asset just created is never listed for its owner |
| OwnershipQuery.NewestAssetListedByIntendedQuery | contracts/hello_world/src/lib.rs:128 | the intended query lists the asset just created |
| OwnershipQuery.AliceBobAlice | contracts/hello_world/src/lib.rs:125-136 | after assets for "alice", "bob", "alice": as written the "alice" query lists only asset 1; the intended query lists assets 1 and 3 |
| Contract.Invoke | contracts/hello_world/src/lib.rs:32-143 | view and count calls leave the store unchanged; exactly double approval and double expiry abort, with the matching reason and the store unchanged; create_asset answers count+1; the counter never decreases; existing assets never change; licenses are never deleted; only create_license changes license terms |
| Contract.Run | contracts/hello_world/src/lib.rs:32-143 | a run gives one response per call and never decreases the counter |
| Contract.InvokeKeepsConsistent | contracts/hello_world/src/lib.rs:34-97 | every entry point keeps the store consistent |
| Contract.RunKeepsConsistent | contracts/hello_world/src/lib.rs:34-97 | every sequence of invocations keeps the store consistent |
| Contract.ReachableIsConsistent | contracts/hello_world/src/lib.rs:34-52 | every store reachable from deployment is consistent: ids are dense from 1 and no id is skipped or reused |
| Contract.CreationsNumberDensely | contracts/hello_world/src/lib.rs:37-51 | n successive create_asset calls return count+1 .. count+n in call order (1 .. n from a fresh store) and leave the counter at count+n |
| Contract.AssetsAreImmutable | contracts/hello_world/src/lib.rs:40-48 | once created, an asset looks up the same after any further invocations |

## Left out

- Host plumbing (`Env`, instance storage, `symbol_short!`, the contract macros) is replaced by the `Store` value with one map per key family.
- Value serialization and Soroban `String`/`Vec` allocation are not modelled; strings are `seq<char>` and vectors are `seq`.
- The `panic!` message text is not modelled; only its kind (`AlreadyActive`, `AlreadyInactive`) is kept. Transaction rollback is modelled by returning no store.
- AssetRegistry.CreateAsset: the counter, the `asset_id` field and every asset-id argument are unbounded `nat` rather than `u64`. The `u64` overflow at 2^64 is not modelled, because the build profile that decides between a panic and wrap-around is not part of this model.
- Caller identity, authorization, time-based expiry and royalty-range checks are absent from the contract, so they are absent here too.
- The host's per-call compute budget, which the linear owner scan may exhaust, is not modelled.

## Findings

| source | as written | input that shows it | evidently intended | confidence | as-written member | corrected member |
|---|---|---|---|---|---|---|
| contracts/hello_world/src/lib.rs:128 | the owner scan runs `for i in 0..asset_count`: it visits id 0, which never holds an asset, and never visits id `asset_count`, the newest asset | on a fresh store, `create_asset("t","d","alice")` then `view_assets_by_owner("alice")` returns an empty list. Any owner "Unknown" query returns the sentinel once an asset exists | scan ids 1..=asset_count, so the query returns every asset of the owner and no sentinel | high; not executed | OwnershipQuery.NewestAssetNeverListed | OwnershipQuery.OwnedAssetsListsExactlyOwned |

The entry-point dispatch `Contract.Invoke` keeps the as-written scan, because it
models the deployed contract. The corrected query is `OwnershipQuery.OwnedAssets`
with its loop `OwnershipQuery.ViewOwnedAssets`. `OwnershipQuery.AliceBobAlice`
shows both on a concrete run.
