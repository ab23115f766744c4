/** The records the digital-rights contract stores: assets, licenses, the
    default records its lookups return on a miss, and the two ways a license
    transition can abort. */
module Records {

  /** Fixed-width unsigned integers of the license's stored numbers. The
      contract only copies these values, it never computes with them. */
  type u32 = x: int | 0 <= x < 0x1_0000_0000
  type u64 = x: int | 0 <= x < 0x1_0000_0000_0000_0000

  /** The grant terms attached to one asset. */
  datatype License = License(
    licensee: string,
    usageRights: string,
    expirationTime: u64,
    royaltyPercentage: u32,
    isActive: bool)

  /** The metadata of one registered piece of digital content. */
  datatype DigitalAsset = DigitalAsset(
    assetId: nat,
    title: string,
    description: string,
    owner: string)

  const NotFound: string := "Not Found"
  const Unknown: string := "Unknown"

  /** What an asset lookup yields for an id that holds no asset. */
  const AssetSentinel: DigitalAsset := DigitalAsset(0, NotFound, NotFound, Unknown)

  /** What a license lookup yields for an id that holds no license; it is inactive. */
  const LicenseSentinel: License := License(Unknown, NotFound, 0, 0, false)

  /** The reasons a license transition aborts the whole invocation. */
  datatype Abort = AlreadyActive | AlreadyInactive

  /** The outcome of an entry point that may abort. An aborted invocation
      carries no store: the host discards every write it attempted. */
  datatype Result<+T> = Ok(value: T) | Aborted(reason: Abort)
}
