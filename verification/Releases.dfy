/** The values that every deployment program handles: environments, release
    manifests and the facts that the deployment policy reads out of them. */
module Releases {
  import opened Newlines

  datatype Environment = Staging | Production

  /** `latestMigration:migrationSetSha256` of a manifest. */
  type Fingerprint = string

  /** The migrations that a release ships, or that a database has applied, in
      order. */
  type Schema = seq<string>

  /** A text without line breaks. */
  type Line = s: Bytes | CR !in s && LF !in s

  /** What `validate_manifest_bytes` learns from an acceptable manifest; the
      checksum line is the one text (`hex  release-manifest.json`) it accepts
      beside that manifest. `sha256` is the digest of the manifest in hex, and
      `migrations` is what the fingerprint is the digest of. */
  datatype Facts = Facts(
    sha256: string, fingerprint: Fingerprint, migrations: Schema, revision: string, checksumLine: Line)

  /** The acceptable manifests. */
  type Policy = map<Bytes, Facts>

  /** SHA-256 tells the acceptable manifests apart, and their migrations if those
      differ. */
  ghost predicate CollisionFree(policy: Policy) {
    forall a, b :: a in policy && b in policy ==>
      && (policy[a].sha256 == policy[b].sha256 ==> a == b)
      && (policy[a].fingerprint == policy[b].fingerprint ==> policy[a].migrations == policy[b].migrations)
  }

  predicate ValidPair(policy: Policy, manifest: Bytes, checksumText: Bytes) {
    manifest in policy
    && (checksumText == policy[manifest].checksumLine || checksumText == policy[manifest].checksumLine + [LF])
  }

  /** The runtime files of an environment; only Staging owns the Monitoring one. */
  datatype RuntimePath = OwnRuntime | MonitoringRuntime

  function RuntimePaths(environment: Environment): seq<RuntimePath> {
    if environment.Staging? then [OwnRuntime, MonitoringRuntime] else [OwnRuntime]
  }

  function OwnedPaths(environment: Environment): set<RuntimePath> {
    if environment.Staging? then {OwnRuntime, MonitoringRuntime} else {OwnRuntime}
  }

  /** The fixed file names inside release and journal directories. */
  datatype FileName = ManifestFile | ChecksumFile | VersionFile | EnvironmentFile | RuntimeFile(path: RuntimePath)

  type Directory = map<FileName, Bytes>

  function Pair(manifest: Bytes, checksum: Bytes): Directory {
    map[ManifestFile := manifest, ChecksumFile := checksum]
  }

  /** A directory that holds exactly one pair the policy accepts. */
  predicate Authoritative(policy: Policy, directory: Directory) {
    directory.Keys == {ManifestFile, ChecksumFile}
    && ValidPair(policy, directory[ManifestFile], Translate(directory[ChecksumFile]))
  }
}
