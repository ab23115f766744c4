/** The contract's instance storage, as a value. */
module Storage {
  import opened Records

  /** The `AST_CNT` key: never written on a fresh contract, afterwards the
      id of the newest asset. */
  datatype Counter = Unset | Set(n: nat) {

    /** What a read of the key yields, `fallback` standing in for a miss. */
    function ValueOr(fallback: nat): nat {
      if Set? then n else fallback
    }
  }

  /** The three key families of the store: `Assetbook::Asset(id)` in
      `assets`, `Licensebook::License(id)` in `licenses`, and the single
      `AST_CNT` counter key, which is absent until the first asset is made. */
  datatype Store = Store(
    assets: map<nat, DigitalAsset>,
    licenses: map<nat, License>,
    counter: Counter)

  /** A deployed contract before any invocation: no key holds a value. */
  const Fresh: Store := Store(map[], map[], Unset)

  /** The store after an invocation together with the value it returned. */
  datatype Reply<+T> = Reply(store: Store, value: T)
}
