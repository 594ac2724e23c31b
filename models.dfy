/**
 * Records shared by the resolvers and the analyzer: versions with release
 * instants, the per-interval dependency record, and the registry metadata the
 * analysis reads.  Instants are integer seconds since the epoch, already in UTC.
 */
module Models {
  import opened Wrappers
  import opened Dicts

  /** A package version with its release instant. */
  datatype PackageVersion = PackageVersion(name: string, version: string, releasedAt: int)

  /** The computed state of one dependency over one interval. */
  datatype DependencyIntervalRecord = DependencyIntervalRecord(
    dependency: string,
    dependencyConstraint: string,
    dependencyVersion: Option<string>,
    dependencyHighestVersion: Option<string>,
    intervalStart: int,
    intervalEnd: int,
    updated: bool,
    remediated: bool,
    ageOfIntervalDays: int,
    weight: real)

  /** An entry of npm metadata `versions`: `dist.published` and `dependencies`. */
  datatype NpmVersionData = NpmVersionData(published: Option<string>, dependencies: Dict<string, string>)

  /** A file of a PyPI release: its `upload_time`. */
  datatype ReleaseFile = ReleaseFile(uploadTime: Option<string>)

  /**
   * Registry metadata of one package: npm documents carry `versions`, PyPI
   * documents carry `releases`; a missing key reads as an empty dict.
   */
  datatype Metadata = Metadata(
    versions: Dict<string, NpmVersionData>,
    releases: Dict<string, seq<ReleaseFile>>)

  /**
   * The version data returned with the version in use at the end date: the npm
   * `versions` entry, or the PyPI pair of upload time and `requires_dist`.
   */
  datatype VersionData =
    | NpmData(data: NpmVersionData)
    | PypiData(uploadTime: int, requiresDist: seq<string>)

  /** An npm `versions` entry, `{}` when the version is not listed. */
  function NpmEntry(meta: Metadata, version: string): (r: NpmVersionData)
    ensures HasKey(meta.versions, version) ==> Get(meta.versions, version) == Some(r)
    ensures !HasKey(meta.versions, version) ==> r == NpmVersionData(None, [])
  {
    match Get(meta.versions, version)
    case Some(d) => d
    case None => NpmVersionData(None, [])
  }
}
