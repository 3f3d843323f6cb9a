/** The durability evidence of a deployment that changes the migration
    fingerprint: how it is bound to its context, checked and published. */
module DurabilityEvidence {
  import BackupIds
  import opened FlatJson
  import opened Outcomes

  const MAXIMUM_EVIDENCE_BYTES := 8192
  const MAXIMUM_AGE := 900
  const MAXIMUM_SKEW := 30

  // ------------------------------------------------------------------
  // The patterns.

  predicate All(t: string, allowed: char -> bool) {
    forall k :: 0 <= k < |t| ==> allowed(t[k])
  }

  predicate IsLetter(c: char) { 'a' <= c <= 'z' || 'A' <= c <= 'Z' }

  predicate IsDigit(c: char) { '0' <= c <= '9' }

  predicate IsHex(c: char) { IsDigit(c) || 'a' <= c <= 'f' }

  predicate IsSha256(t: string) { |t| == 64 && All(t, IsHex) }

  predicate IsDeploymentId(t: string) { 1 <= |t| <= 20 && All(t, IsDigit) && t[0] != '0' }

  predicate IsFingerprint(t: string) {
    && 66 <= |t| <= 193 && IsSha256(t[|t| - 64..]) && t[|t| - 65] == ':'
    && All(t[..|t| - 65], c => IsLetter(c) || IsDigit(c) || c in {'_', '.', '-'})
  }

  predicate IsRemoteIdentity(t: string) {
    && 1 <= |t| <= 256 && (IsLetter(t[0]) || IsDigit(t[0]))
    && All(t, c => IsLetter(c) || IsDigit(c) || c in {'.', '_', ':', '/', '-'})
    && !exists i :: 0 <= i <= |t| && "://" <= t[i..]
  }

  predicate IsConfirmationName(t: string) {
    && 1 <= |t| <= 128 && (IsLetter(t[0]) || IsDigit(t[0]))
    && All(t, c => IsLetter(c) || IsDigit(c) || c in {'.', '_', ':', '-'})
  }

  /** A remote identity names no URL and no user. */
  lemma RemoteIdentityIsPlain(a: string, b: string)
    ensures !IsRemoteIdentity(a + "://" + b) && !IsRemoteIdentity(a + "@" + b) && !IsRemoteIdentity("")
  {
    var url, user := a + "://" + b, a + "@" + b;
    assert url[|a|..] == "://" + b && "://" <= url[|a|..];
    assert user[|a|] == '@';
  }

  // ------------------------------------------------------------------
  // The values.

  /** `DurabilityContext`. */
  datatype Context = Context(
    deploymentId: string, backupId: string, current: string, target: string, targetManifestSha256: string)
  {
    predicate Valid() {
      && IsDeploymentId(deploymentId) && BackupIds.IsBackupId("production", backupId)
      && IsFingerprint(current) && IsFingerprint(target) && IsSha256(targetManifestSha256)
      && current != target
    }
  }

  /** What evidence says of a `BackupPair`. */
  datatype BackupPair = BackupPair(
    artifactFilename: string, artifactSha256: string, manifestFilename: string, manifestSha256: string)

  /** `RemoteDurabilityConfirmation`; its fields can hold any JSON value, as when
      they are taken from a file. */
  datatype Confirmation = Confirmation(
    backupId: string, artifactSha256: string, manifestSha256: string,
    destinationVerified: Value, verificationSource: Value, durableWriteConfirmed: Value,
    durabilityConfirmation: Value, remoteObjectSetId: Value, verifiedAtUnix: Value)

  datatype Field =
    | SchemaVersion | Environment | DeploymentId | BackupId
    | ArtifactFilename | ArtifactSha256 | ManifestFilename | ManifestSha256
    | CurrentMigrationFingerprint | TargetMigrationFingerprint | TargetManifestSha256
    | LocalIntegrityVerified | DeepArchiveVerified
    | DestinationVerified | VerificationSource | DurableWriteConfirmed
    | DurabilityConfirmation | RemoteObjectSetId | VerifiedAtUnix

  function Name(f: Field): string {
    match f
    case SchemaVersion => "schemaVersion"
    case Environment => "environment"
    case DeploymentId => "deploymentId"
    case BackupId => "backupId"
    case ArtifactFilename => "artifactFilename"
    case ArtifactSha256 => "artifactSha256"
    case ManifestFilename => "manifestFilename"
    case ManifestSha256 => "manifestSha256"
    case CurrentMigrationFingerprint => "currentMigrationFingerprint"
    case TargetMigrationFingerprint => "targetMigrationFingerprint"
    case TargetManifestSha256 => "targetManifestSha256"
    case LocalIntegrityVerified => "localIntegrityVerified"
    case DeepArchiveVerified => "deepArchiveVerified"
    case DestinationVerified => "destinationVerified"
    case VerificationSource => "verificationSource"
    case DurableWriteConfirmed => "durableWriteConfirmed"
    case DurabilityConfirmation => "durabilityConfirmation"
    case RemoteObjectSetId => "remoteObjectSetId"
    case VerifiedAtUnix => "verifiedAtUnix"
  }

  /** The length, the first and the third letter tell a name. */
  function OfName(name: string): Field {
    var n := |name|;
    var a, b := if n > 2 then name[0] else ' ', if n > 2 then name[2] else ' ';
    if n == 8 then BackupId
    else if n == 11 then Environment
    else if n == 12 then DeploymentId
    else if n == 13 then SchemaVersion
    else if n == 14 then if a == 'a' then ArtifactSha256 else if a == 'm' then ManifestSha256 else VerifiedAtUnix
    else if n == 16 then if a == 'a' then ArtifactFilename else ManifestFilename
    else if n == 17 then RemoteObjectSetId
    else if n == 18 then VerificationSource
    else if n == 19 then if b == 'e' then DeepArchiveVerified else DestinationVerified
    else if n == 20 then TargetManifestSha256
    else if n == 21 then DurableWriteConfirmed
    else if n == 22 then if a == 'l' then LocalIntegrityVerified else DurabilityConfirmation
    else if n == 26 then TargetMigrationFingerprint
    else CurrentMigrationFingerprint
  }

  lemma OfNameBack(f: Field)
    ensures OfName(Name(f)) == f
  {
  }

  /** The nineteen values of an evidence object. */
  datatype Evidence = Evidence(
    schemaVersion: Value, environment: Value, deploymentId: Value, backupId: Value,
    artifactFilename: Value, artifactSha256: Value, manifestFilename: Value, manifestSha256: Value,
    currentFingerprint: Value, targetFingerprint: Value, targetManifestSha256: Value,
    localIntegrityVerified: Value, deepArchiveVerified: Value,
    destinationVerified: Value, verificationSource: Value, durableWriteConfirmed: Value,
    durabilityConfirmation: Value, remoteObjectSetId: Value, verifiedAtUnix: Value)
  {
    function At(f: Field): Value {
      match f
      case SchemaVersion => schemaVersion
      case Environment => environment
      case DeploymentId => deploymentId
      case BackupId => backupId
      case ArtifactFilename => artifactFilename
      case ArtifactSha256 => artifactSha256
      case ManifestFilename => manifestFilename
      case ManifestSha256 => manifestSha256
      case CurrentMigrationFingerprint => currentFingerprint
      case TargetMigrationFingerprint => targetFingerprint
      case TargetManifestSha256 => targetManifestSha256
      case LocalIntegrityVerified => localIntegrityVerified
      case DeepArchiveVerified => deepArchiveVerified
      case DestinationVerified => destinationVerified
      case VerificationSource => verificationSource
      case DurableWriteConfirmed => durableWriteConfirmed
      case DurabilityConfirmation => durabilityConfirmation
      case RemoteObjectSetId => remoteObjectSetId
      case VerifiedAtUnix => verifiedAtUnix
    }

    function AsObject(): (m: Object)
      ensures m.Keys == EvidenceKeys()
    {
      map k | k in EvidenceKeys() :: At(OfName(k))
    }
  }

  /** `EVIDENCE_KEYS`. */
  function EvidenceKeys(): (keys: set<string>)
    ensures forall f :: Name(f) in keys
  {
    set f: Field :: Name(f)
  }

  function FromObject(v: Object): Evidence
    requires v.Keys == EvidenceKeys()
  {
    Evidence(v[Name(SchemaVersion)], v[Name(Environment)], v[Name(DeploymentId)], v[Name(BackupId)],
      v[Name(ArtifactFilename)], v[Name(ArtifactSha256)], v[Name(ManifestFilename)], v[Name(ManifestSha256)],
      v[Name(CurrentMigrationFingerprint)], v[Name(TargetMigrationFingerprint)], v[Name(TargetManifestSha256)],
      v[Name(LocalIntegrityVerified)], v[Name(DeepArchiveVerified)],
      v[Name(DestinationVerified)], v[Name(VerificationSource)], v[Name(DurableWriteConfirmed)],
      v[Name(DurabilityConfirmation)], v[Name(RemoteObjectSetId)], v[Name(VerifiedAtUnix)])
  }

  lemma ObjectAt(e: Evidence, f: Field)
    ensures e.AsObject()[Name(f)] == e.At(f)
  {
    OfNameBack(f);
  }

  lemma FromObjectAt(v: Object, f: Field)
    requires v.Keys == EvidenceKeys()
    ensures FromObject(v).At(f) == v[Name(f)]
  {
  }

  /** A field in which two different objects differ. */
  function Difference(a: Evidence, b: Evidence): (f: Field)
    ensures a != b ==> a.At(f) != b.At(f)
  {
    if a.schemaVersion != b.schemaVersion then SchemaVersion
    else if a.environment != b.environment then Environment
    else if a.deploymentId != b.deploymentId then DeploymentId
    else if a.backupId != b.backupId then BackupId
    else if a.artifactFilename != b.artifactFilename then ArtifactFilename
    else if a.artifactSha256 != b.artifactSha256 then ArtifactSha256
    else if a.manifestFilename != b.manifestFilename then ManifestFilename
    else if a.manifestSha256 != b.manifestSha256 then ManifestSha256
    else if a.currentFingerprint != b.currentFingerprint then CurrentMigrationFingerprint
    else if a.targetFingerprint != b.targetFingerprint then TargetMigrationFingerprint
    else if a.targetManifestSha256 != b.targetManifestSha256 then TargetManifestSha256
    else if a.localIntegrityVerified != b.localIntegrityVerified then LocalIntegrityVerified
    else if a.deepArchiveVerified != b.deepArchiveVerified then DeepArchiveVerified
    else if a.destinationVerified != b.destinationVerified then DestinationVerified
    else if a.verificationSource != b.verificationSource then VerificationSource
    else if a.durableWriteConfirmed != b.durableWriteConfirmed then DurableWriteConfirmed
    else if a.durabilityConfirmation != b.durabilityConfirmation then DurabilityConfirmation
    else if a.remoteObjectSetId != b.remoteObjectSetId then RemoteObjectSetId
    else VerifiedAtUnix
  }

  lemma FromAsObject(e: Evidence)
    ensures FromObject(e.AsObject()) == e
  {
    var f := Difference(FromObject(e.AsObject()), e);
    ObjectAt(e, f);
    FromObjectAt(e.AsObject(), f);
  }

  lemma AsFromObject(v: Object)
    requires v.Keys == EvidenceKeys()
    ensures FromObject(v).AsObject() == v
  {
    var w := FromObject(v).AsObject();
    forall k | k in v
      ensures w[k] == v[k]
    {
      var f: Field :| Name(f) == k;
      ObjectAt(FromObject(v), f);
      FromObjectAt(v, f);
    }
  }

  /** `evidence_value`. */
  function EvidenceValue(ctx: Context, pair: BackupPair, c: Confirmation): Evidence {
    Evidence(Int(1), Str("production"), Str(ctx.deploymentId), Str(ctx.backupId),
      Str(pair.artifactFilename), Str(pair.artifactSha256), Str(pair.manifestFilename), Str(pair.manifestSha256),
      Str(ctx.current), Str(ctx.target), Str(ctx.targetManifestSha256),
      Bool(true), Bool(true),
      c.destinationVerified, c.verificationSource, c.durableWriteConfirmed,
      c.durabilityConfirmation, c.remoteObjectSetId, c.verifiedAtUnix)
  }

  predicate IsMigrationName(t: string) {
    1 <= |t| <= 128 && forall k :: 0 <= k < |t| ==>
      'a' <= t[k] <= 'z' || 'A' <= t[k] <= 'Z' || '0' <= t[k] <= '9' || t[k] in {'_', '.', '-'}
  }

  predicate IsDigest(t: string) {
    |t| == 64 && forall k :: 0 <= k < |t| ==> '0' <= t[k] <= '9' || 'a' <= t[k] <= 'f'
  }

  /** A fingerprint is the name of a migration, a colon, and a digest. */
  lemma FingerprintsAre(t: string)
    ensures IsFingerprint(t) <==>
      exists name: string, digest: string :: IsMigrationName(name) && IsDigest(digest) && t == name + ":" + digest
  {
    if IsFingerprint(t) {
      var name, digest := t[..|t| - 65], t[|t| - 64..];
      assert t == name + ":" + digest && IsMigrationName(name) && IsDigest(digest);
    }
    if name: string, digest: string :| IsMigrationName(name) && IsDigest(digest) && t == name + ":" + digest {
      assert t[..|t| - 65] == name && t[|t| - 64..] == digest;
    }
  }

  /** What a valid context consists of. */
  lemma ValidContextsAre(ctx: Context)
    ensures ctx.Valid() <==>
      && 1 <= |ctx.deploymentId| <= 20 && ctx.deploymentId[0] != '0'
      && (forall k :: 0 <= k < |ctx.deploymentId| ==> '0' <= ctx.deploymentId[k] <= '9')
      && BackupIds.IsBackupId("production", ctx.backupId)
      && IsFingerprint(ctx.current) && IsFingerprint(ctx.target) && ctx.current != ctx.target
      && IsDigest(ctx.targetManifestSha256)
  {
  }

  // ------------------------------------------------------------------
  // The checks.

  /** Python's `==` on two JSON scalars: `True == 1` and `False == 0`. */
  predicate Equal(a: Value, b: Value) {
    a == b || (Numeric(a).Some? && Numeric(a) == Numeric(b))
  }

  function Numeric(a: Value): Option<int> {
    match a
    case Int(n) => Some(n)
    case Bool(b) => Some(if b then 1 else 0)
    case _ => None
  }

  predicate EqualEvidence(a: Evidence, b: Evidence) {
    && Equal(a.schemaVersion, b.schemaVersion) && Equal(a.environment, b.environment)
    && Equal(a.deploymentId, b.deploymentId) && Equal(a.backupId, b.backupId)
    && Equal(a.artifactFilename, b.artifactFilename) && Equal(a.artifactSha256, b.artifactSha256)
    && Equal(a.manifestFilename, b.manifestFilename) && Equal(a.manifestSha256, b.manifestSha256)
    && Equal(a.currentFingerprint, b.currentFingerprint) && Equal(a.targetFingerprint, b.targetFingerprint)
    && Equal(a.targetManifestSha256, b.targetManifestSha256)
    && Equal(a.localIntegrityVerified, b.localIntegrityVerified)
    && Equal(a.deepArchiveVerified, b.deepArchiveVerified)
    && Equal(a.destinationVerified, b.destinationVerified)
    && Equal(a.verificationSource, b.verificationSource)
    && Equal(a.durableWriteConfirmed, b.durableWriteConfirmed)
    && Equal(a.durabilityConfirmation, b.durabilityConfirmation)
    && Equal(a.remoteObjectSetId, b.remoteObjectSetId) && Equal(a.verifiedAtUnix, b.verifiedAtUnix)
  }

  /** `_validate_confirmation`. */
  predicate ValidConfirmation(c: Confirmation, ctx: Context, pair: BackupPair, now: int) {
    && c.backupId == ctx.backupId
    && c.artifactSha256 == pair.artifactSha256 && c.manifestSha256 == pair.manifestSha256
    && c.destinationVerified == Bool(true)
    && c.verificationSource == Str("destination")
    && c.durableWriteConfirmed == Bool(true)
    && c.durabilityConfirmation.Str? && IsConfirmationName(c.durabilityConfirmation.text)
    && c.remoteObjectSetId.Str? && IsRemoteIdentity(c.remoteObjectSetId.text)
    && c.verifiedAtUnix.Int?
    && now - MAXIMUM_AGE <= c.verifiedAtUnix.n <= now + MAXIMUM_SKEW
  }

  /** `str(value)` where the value is a string; anything else prints as some text,
      which is all that matters here. */
  function AsText(v: Value): Value {
    Str(if v.Str? then v.text else PrintValue(v))
  }

  /** The confirmation that the file is compared with: fixed where it must be. */
  function Expected(e: Evidence, ctx: Context, pair: BackupPair): Confirmation {
    Confirmation(ctx.backupId, pair.artifactSha256, pair.manifestSha256, Bool(true), Str("destination"), Bool(true),
      AsText(e.durabilityConfirmation), AsText(e.remoteObjectSetId), e.verifiedAtUnix)
  }

  /** The confirmation that the file itself states. */
  function Stated(e: Evidence, ctx: Context, pair: BackupPair): Confirmation {
    Confirmation(ctx.backupId, pair.artifactSha256, pair.manifestSha256,
      e.destinationVerified, e.verificationSource, e.durableWriteConfirmed,
      e.durabilityConfirmation, e.remoteObjectSetId, e.verifiedAtUnix)
  }

  /** The checks on the parsed object. */
  predicate Convincing(e: Evidence, ctx: Context, pair: BackupPair, now: int) {
    && e.schemaVersion == Int(1)
    && e.localIntegrityVerified == Bool(true) && e.deepArchiveVerified == Bool(true)
    && e.destinationVerified == Bool(true) && e.durableWriteConfirmed == Bool(true)
    && EqualEvidence(e, EvidenceValue(ctx, pair, Expected(e, ctx, pair)))
    && ValidConfirmation(Stated(e, ctx, pair), ctx, pair, now)
  }

  /** The object of a file that is printed canonically and has the right keys. */
  function ReadEvidence(data: string): Option<Evidence> {
    var v :- StrictObject(data, MAXIMUM_EVIDENCE_BYTES);
    if v.Keys == EvidenceKeys() && Canonical(v) == data then Some(FromObject(v)) else None
  }

  /** `validate_evidence_bytes`. */
  function ValidateEvidence(data: string, ctx: Context, pair: BackupPair, now: int): Option<Evidence> {
    if !ctx.Valid() then None
    else
      var e :- ReadEvidence(data);
      if Convincing(e, ctx, pair, now) then Some(e) else None
  }

  // ------------------------------------------------------------------
  // What acceptance means.

  function Print(e: Evidence): string {
    Canonical(e.AsObject())
  }

  lemma ConvincingIffStated(e: Evidence, ctx: Context, pair: BackupPair, now: int)
    ensures Convincing(e, ctx, pair, now) <==>
      e == EvidenceValue(ctx, pair, Stated(e, ctx, pair)) && ValidConfirmation(Stated(e, ctx, pair), ctx, pair, now)
  {
  }

  lemma CanonicalReads(m: Object)
    requires m.Keys == EvidenceKeys()
    ensures ReadEvidence(Canonical(m)) ==
      if Utf8Size(Canonical(m)) <= MAXIMUM_EVIDENCE_BYTES then Some(FromObject(m)) else None
  {
    hide StrictObject, Canonical, Utf8Size, FromObject, EvidenceKeys;
    StrictObjectOfCanonical(m, MAXIMUM_EVIDENCE_BYTES);
  }

  lemma PrintReads(e: Evidence)
    ensures ReadEvidence(Print(e)) == if Utf8Size(Print(e)) <= MAXIMUM_EVIDENCE_BYTES then Some(e) else None
  {
    CanonicalReads(e.AsObject());
    FromAsObject(e);
  }

  lemma ReadIsPrint(data: string)
    ensures ReadEvidence(data).Some? ==>
      data == Print(ReadEvidence(data).value) && Utf8Size(data) <= MAXIMUM_EVIDENCE_BYTES
  {
    var v := StrictObject(data, MAXIMUM_EVIDENCE_BYTES);
    if v.Some? && v.value.Keys == EvidenceKeys() {
      AsFromObject(v.value);
    }
  }

  /** Data is accepted, with value `e`, exactly when it is the canonical print of
      this context's evidence with a confirmation that is valid now. */
  lemma AcceptsIffAttested(data: string, ctx: Context, pair: BackupPair, now: int, e: Evidence)
    ensures ValidateEvidence(data, ctx, pair, now) == Some(e) <==>
      && ctx.Valid() && Utf8Size(data) <= MAXIMUM_EVIDENCE_BYTES && data == Print(e)
      && e == EvidenceValue(ctx, pair, Stated(e, ctx, pair))
      && ValidConfirmation(Stated(e, ctx, pair), ctx, pair, now)
  {
    PrintReads(e);
    ReadIsPrint(data);
    ConvincingIffStated(e, ctx, pair, now);
  }

  /** No data is evidence for two contexts or two backup pairs, at any times. */
  lemma OneContext(data: string, a: Context, p: BackupPair, now: int, b: Context, q: BackupPair, later: int)
    ensures ValidateEvidence(data, a, p, now).Some? && ValidateEvidence(data, b, q, later).Some? ==> a == b && p == q
  {
    var first, second := ValidateEvidence(data, a, p, now), ValidateEvidence(data, b, q, later);
    hide ValidateEvidence, ValidConfirmation, ReadEvidence, Print;
    if first.Some? && second.Some? {
      AcceptsIffAttested(data, a, p, now, first.value);
      AcceptsIffAttested(data, b, q, later, second.value);
      PrintReads(first.value);
      PrintReads(second.value);
    }
  }

  // ------------------------------------------------------------------
  // What an evidence file says, key by key.

  /** The object names this context, this pair, and a destination that was verified
      at most fifteen minutes ago. */
  ghost predicate SaysEvidence(m: Object, ctx: Context, pair: BackupPair, now: int) {
    && m.Keys == {
      "schemaVersion", "environment", "deploymentId", "backupId",
      "artifactFilename", "artifactSha256", "manifestFilename", "manifestSha256",
      "currentMigrationFingerprint", "targetMigrationFingerprint", "targetManifestSha256",
      "localIntegrityVerified", "deepArchiveVerified", "destinationVerified", "verificationSource",
      "durableWriteConfirmed", "durabilityConfirmation", "remoteObjectSetId", "verifiedAtUnix"}
    && m["schemaVersion"] == Int(1) && m["environment"] == Str("production")
    && m["deploymentId"] == Str(ctx.deploymentId) && m["backupId"] == Str(ctx.backupId)
    && m["artifactFilename"] == Str(pair.artifactFilename) && m["artifactSha256"] == Str(pair.artifactSha256)
    && m["manifestFilename"] == Str(pair.manifestFilename) && m["manifestSha256"] == Str(pair.manifestSha256)
    && m["currentMigrationFingerprint"] == Str(ctx.current) && m["targetMigrationFingerprint"] == Str(ctx.target)
    && m["targetManifestSha256"] == Str(ctx.targetManifestSha256)
    && m["localIntegrityVerified"] == Bool(true) && m["deepArchiveVerified"] == Bool(true)
    && m["destinationVerified"] == Bool(true) && m["verificationSource"] == Str("destination")
    && m["durableWriteConfirmed"] == Bool(true)
    && m["durabilityConfirmation"].Str? && IsConfirmationName(m["durabilityConfirmation"].text)
    && m["remoteObjectSetId"].Str? && IsRemoteIdentity(m["remoteObjectSetId"].text)
    && m["verifiedAtUnix"].Int? && now - 900 <= m["verifiedAtUnix"].n <= now + 30
  }

  lemma KeysAreThese()
    ensures EvidenceKeys() == {
      "schemaVersion", "environment", "deploymentId", "backupId",
      "artifactFilename", "artifactSha256", "manifestFilename", "manifestSha256",
      "currentMigrationFingerprint", "targetMigrationFingerprint", "targetManifestSha256",
      "localIntegrityVerified", "deepArchiveVerified", "destinationVerified", "verificationSource",
      "durableWriteConfirmed", "durabilityConfirmation", "remoteObjectSetId", "verifiedAtUnix"}
  {
    var keys := EvidenceKeys();
    assert Name(SchemaVersion) in keys && Name(Environment) in keys && Name(DeploymentId) in keys;
    assert Name(BackupId) in keys && Name(ArtifactFilename) in keys && Name(ArtifactSha256) in keys;
    assert Name(ManifestFilename) in keys && Name(ManifestSha256) in keys;
    assert Name(CurrentMigrationFingerprint) in keys && Name(TargetMigrationFingerprint) in keys;
    assert Name(TargetManifestSha256) in keys && Name(LocalIntegrityVerified) in keys;
    assert Name(DeepArchiveVerified) in keys && Name(DestinationVerified) in keys;
    assert Name(VerificationSource) in keys && Name(DurableWriteConfirmed) in keys;
    assert Name(DurabilityConfirmation) in keys && Name(RemoteObjectSetId) in keys && Name(VerifiedAtUnix) in keys;
  }

  lemma SaysWhatIsStated(m: Object, ctx: Context, pair: BackupPair, now: int)
    requires m.Keys == EvidenceKeys()
    ensures SaysEvidence(m, ctx, pair, now) <==> Convincing(FromObject(m), ctx, pair, now)
  {
    hide EvidenceKeys, IsConfirmationName, IsRemoteIdentity, FromObject, Convincing;
    KeysAreThese();
    FirstFields(m);
    MiddleFields(m);
    LastFields(m);
    ConvincingIffStated(FromObject(m), ctx, pair, now);
  }

  lemma NamesAreThese()
    ensures Name(SchemaVersion) == "schemaVersion"
    ensures Name(Environment) == "environment"
    ensures Name(DeploymentId) == "deploymentId"
    ensures Name(BackupId) == "backupId"
    ensures Name(ArtifactFilename) == "artifactFilename"
    ensures Name(ArtifactSha256) == "artifactSha256"
    ensures Name(ManifestFilename) == "manifestFilename"
    ensures Name(ManifestSha256) == "manifestSha256"
    ensures Name(CurrentMigrationFingerprint) == "currentMigrationFingerprint"
    ensures Name(TargetMigrationFingerprint) == "targetMigrationFingerprint"
    ensures Name(TargetManifestSha256) == "targetManifestSha256"
    ensures Name(LocalIntegrityVerified) == "localIntegrityVerified"
    ensures Name(DeepArchiveVerified) == "deepArchiveVerified"
    ensures Name(DestinationVerified) == "destinationVerified"
    ensures Name(VerificationSource) == "verificationSource"
    ensures Name(DurableWriteConfirmed) == "durableWriteConfirmed"
    ensures Name(DurabilityConfirmation) == "durabilityConfirmation"
    ensures Name(RemoteObjectSetId) == "remoteObjectSetId"
    ensures Name(VerifiedAtUnix) == "verifiedAtUnix"
  {
  }

  lemma FirstFields(m: Object)
    requires m.Keys == EvidenceKeys()
    ensures var e := FromObject(m);
      && "schemaVersion" in m && e.schemaVersion == m["schemaVersion"]
      && "environment" in m && e.environment == m["environment"]
      && "deploymentId" in m && e.deploymentId == m["deploymentId"]
      && "backupId" in m && e.backupId == m["backupId"]
      && "artifactFilename" in m && e.artifactFilename == m["artifactFilename"]
      && "artifactSha256" in m && e.artifactSha256 == m["artifactSha256"]
      && "manifestFilename" in m && e.manifestFilename == m["manifestFilename"]
  {
    hide EvidenceKeys, Name;
    NamesAreThese();
    assert forall f :: Name(f) in m;
  }

  lemma MiddleFields(m: Object)
    requires m.Keys == EvidenceKeys()
    ensures var e := FromObject(m);
      && "manifestSha256" in m && e.manifestSha256 == m["manifestSha256"]
      && "currentMigrationFingerprint" in m && e.currentFingerprint == m["currentMigrationFingerprint"]
      && "targetMigrationFingerprint" in m && e.targetFingerprint == m["targetMigrationFingerprint"]
      && "targetManifestSha256" in m && e.targetManifestSha256 == m["targetManifestSha256"]
      && "localIntegrityVerified" in m && e.localIntegrityVerified == m["localIntegrityVerified"]
      && "deepArchiveVerified" in m && e.deepArchiveVerified == m["deepArchiveVerified"]
  {
    hide EvidenceKeys, Name;
    NamesAreThese();
    assert forall f :: Name(f) in m;
  }

  lemma LastFields(m: Object)
    requires m.Keys == EvidenceKeys()
    ensures var e := FromObject(m);
      && "destinationVerified" in m && e.destinationVerified == m["destinationVerified"]
      && "verificationSource" in m && e.verificationSource == m["verificationSource"]
      && "durableWriteConfirmed" in m && e.durableWriteConfirmed == m["durableWriteConfirmed"]
      && "durabilityConfirmation" in m && e.durabilityConfirmation == m["durabilityConfirmation"]
      && "remoteObjectSetId" in m && e.remoteObjectSetId == m["remoteObjectSetId"]
      && "verifiedAtUnix" in m && e.verifiedAtUnix == m["verifiedAtUnix"]
  {
    hide EvidenceKeys, Name;
    NamesAreThese();
    assert forall f :: Name(f) in m;
  }

  /** A file is accepted exactly if it is the canonical print, within 8192 bytes, of
      an object that says all of this. */
  lemma AcceptsIffSays(data: string, ctx: Context, pair: BackupPair, now: int)
    ensures ValidateEvidence(data, ctx, pair, now).Some? <==>
      && ctx.Valid() && StrictObject(data, 8192).Some?
      && Canonical(StrictObject(data, 8192).value) == data
      && SaysEvidence(StrictObject(data, 8192).value, ctx, pair, now)
  {
    hide StrictObject, Canonical, SaysEvidence, Convincing, EvidenceKeys;
    var v := StrictObject(data, 8192);
    if v.Some? {
      KeysAreThese();
      if v.value.Keys == EvidenceKeys() {
        SaysWhatIsStated(v.value, ctx, pair, now);
      } else {
        SaysAllKeys(v.value, ctx, pair, now);
      }
    }
  }

  lemma SaysAllKeys(m: Object, ctx: Context, pair: BackupPair, now: int)
    ensures SaysEvidence(m, ctx, pair, now) ==> m.Keys == EvidenceKeys()
  {
    KeysAreThese();
  }

  // ------------------------------------------------------------------
  // Publication.

  /** The evidence directory: the content of `deployment-<id>.json` by id. */
  type Files = map<string, string>

  predicate Kept(before: Files, after: Files) {
    forall id :: id in before ==> id in after && after[id] == before[id]
  }

  /** One call for `ctx`: nothing is overwritten, and `e` is returned only for a
      file that was not there and attests `e`. */
  ghost predicate Performed(before: Files, after: Files, ctx: Context, pair: BackupPair, now: int,
      e: Option<Evidence>) {
    && Kept(before, after)
    && (e.Some? ==>
      && ctx.deploymentId !in before && ctx.deploymentId in after
      && ValidateEvidence(after[ctx.deploymentId], ctx, pair, now) == e)
  }

  /** The file of this deployment validates for this context, for the pair and at
      the time that it was written for. */
  ghost predicate Attested(files: Files, ctx: Context) {
    && ctx.deploymentId in files
    && exists pair, now :: ValidateEvidence(files[ctx.deploymentId], ctx, pair, now).Some?
  }

  /** An attestation of `ctx` that was not there before. */
  ghost predicate Obtained(before: Files, after: Files, ctx: Context) {
    Kept(before, after) && ctx.deploymentId !in before && Attested(after, ctx)
  }

  /** An evidence file attests no other context of its deployment. */
  lemma AttestedOnce(files: Files, a: Context, b: Context)
    ensures Attested(files, a) && Attested(files, b) && a.deploymentId == b.deploymentId ==> a == b
  {
    if Attested(files, a) && Attested(files, b) && a.deploymentId == b.deploymentId {
      var data := files[a.deploymentId];
      var p, now :| ValidateEvidence(data, a, p, now).Some?;
      var q, later :| ValidateEvidence(data, b, q, later).Some?;
      OneContext(data, a, p, now, b, q, later);
    }
  }

  lemma AcceptedIsPrinted(e: Evidence, ctx: Context, pair: BackupPair, now: int)
    ensures ValidateEvidence(Print(e), ctx, pair, now).Some? ==> ValidateEvidence(Print(e), ctx, pair, now) == Some(e)
  {
    PrintReads(e);
  }

  class EvidenceStore {
    var files: Files

    /** `_atomic_evidence`. Another process may publish between the first test
        and the link; the link fails if the name exists by then. */
    method Publish(id: string, content: string) returns (result: Outcome)
      modifies this
      ensures Kept(old(files), files)
      ensures result.Done? ==> id !in old(files) && id in files && files[id] == content
      ensures id in old(files) ==> result.Raised? && files == old(files)
    {
      if id in files {
        return Raised;
      }
      :- Attempt();
      var others: Files := *;
      files := others + files;
      if id in files {
        return Raised;
      }
      files := files[id := content];
      result := Attempt();
    }

    /** `perform_durability` with the confirmation that the adapter returns, if
        it returns one. */
    method PerformDurability(ctx: Context, pair: BackupPair, now: int, copied: Option<Confirmation>)
      returns (result: Outcome, e: Option<Evidence>)
      modifies this
      ensures Performed(old(files), files, ctx, pair, now, e)
      ensures result.Done? <==> e.Some?
      ensures e.Some? ==> copied.Some? && e.value == EvidenceValue(ctx, pair, copied.value)
      ensures e.Some? ==>
        && ctx.deploymentId in files && StrictObject(files[ctx.deploymentId], 8192).Some?
        && SaysEvidence(StrictObject(files[ctx.deploymentId], 8192).value, ctx, pair, now)
        && copied.value.backupId == ctx.backupId
        && copied.value.artifactSha256 == pair.artifactSha256 && copied.value.manifestSha256 == pair.manifestSha256
      ensures !ctx.Valid() || now < 1 || copied.None? || !ValidConfirmation(copied.value, ctx, pair, now) ==>
        result.Raised? && files == old(files)
    {
      hide StrictObject, ValidateEvidence, SaysEvidence, EvidenceValue, Canonical, IsConfirmationName, IsRemoteIdentity;
      e := None;
      if !ctx.Valid() || now < 1 || copied.None? || !ValidConfirmation(copied.value, ctx, pair, now) {
        return Raised, e;
      }
      var evidence := EvidenceValue(ctx, pair, copied.value);
      result := Publish(ctx.deploymentId, Print(evidence));
      if result.Done? {
        result := Attempt();
      }
      if result.Done? {
        AcceptedIsPrinted(evidence, ctx, pair, now);
        e := ValidateEvidence(files[ctx.deploymentId], ctx, pair, now);
        AcceptsIffSays(files[ctx.deploymentId], ctx, pair, now);
        if e.None? {
          result := Raised;
        }
      }
    }
  }

  lemma {:induction false} FilesStay(states: seq<Files>, i: nat, j: nat)
    requires i <= j < |states| && forall k :: 0 <= k < |states| - 1 ==> Kept(states[k], states[k + 1])
    ensures Kept(states[i], states[j])
    decreases j - i
  {
    if i < j {
      FilesStay(states, i + 1, j);
      assert Kept(states[i], states[i + 1]);
    }
  }

  datatype Call = Call(ctx: Context, pair: BackupPair, now: int, e: Option<Evidence>)

  /** Over any run, evidence is returned at most once for a deployment id, and
      what was published then is still in place at every later time. */
  lemma EvidenceOnce(states: seq<Files>, calls: seq<Call>, i: nat, j: nat)
    requires |states| == |calls| + 1 && i < j < |calls|
    requires forall k :: 0 <= k < |calls| ==>
      Performed(states[k], states[k + 1], calls[k].ctx, calls[k].pair, calls[k].now, calls[k].e)
    requires calls[i].e.Some?
    ensures calls[j].ctx.deploymentId == calls[i].ctx.deploymentId ==> calls[j].e.None?
    ensures var id := calls[i].ctx.deploymentId;
      id in states[j + 1] &&
      ValidateEvidence(states[j + 1][id], calls[i].ctx, calls[i].pair, calls[i].now) == calls[i].e
  {
    FilesStay(states, i + 1, j);
    FilesStay(states, j, j + 1);
  }
}
