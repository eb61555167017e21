/** The records the matcher consumes and produces, one datatype per declared
    interface of src/types/main-types.ts, plus the Option and Result wrappers
    used for the version comparator's verdict and for a rejected run. */
module Types {

  /** A platform an asset runs on, or a vulnerability affects, together with the
      version span over which that holds. */
  datatype PlatformRelation = PlatformRelation(platformId: string, minVersion: string, maxVersion: string)

  datatype Asset = Asset(id: string, name: string, platformRelations: seq<PlatformRelation>)

  datatype Vulnerability = Vulnerability(id: string, name: string, platformRelations: seq<PlatformRelation>)

  datatype Platform = Platform(id: string, name: string)

  /** One output row: the asset is exposed to the vulnerability through the
      platform whose display name is `commonPlatform`. */
  datatype AssetVulnerabilityPair = AssetVulnerabilityPair(assetId: string, vulnerabilityId: string, commonPlatform: string)

  datatype Option<T> = None | Some(value: T)

  /** Why a run is rejected: the version comparator refused the range of an
      asset relation (one of its strings is not a version it accepts), or the
      interval tree refused the keys of a range the comparator accepted
      (`low` above `high`). */
  datatype Error =
    | InvalidVersion(assetId: string, minVersion: string, maxVersion: string)
    | InvertedInterval(assetId: string, low: int, high: int)

  datatype Result<T> = Ok(value: T) | Err(error: Error)
}
