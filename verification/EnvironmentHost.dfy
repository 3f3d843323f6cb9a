/** The files of one environment on the deployment host and the database behind
    it: `/opt/yolpol/releases/<environment>` and the runtime files.

    A method may end `Stopped` inside any of its effects, so what its contract
    says without a condition on the outcome holds at every intermediate step. */
module ReleaseHost {
  import opened Newlines
  import opened Outcomes
  import opened Releases

  /** The directories beside `active`. */
  datatype Sibling = Staged(suffix: nat) | Previous(time: nat, revision: string)

  /** `os.replace` of a completely written temporary file: the file under `key`
      is the old one or the new one at every moment, and no other file changes. */
  method AtomicWrite<K(==)>(files: map<K, Bytes>, key: K, content: Bytes, replace: bool)
    returns (o: Outcome, after: map<K, Bytes>)
    ensures after == files || after == files[key := content]
    ensures o.Done? ==> after == files[key := content]
    ensures o.Done? && key in files && files[key] != content ==> replace
  {
    after := files;
    o := *;  // plain ancestors, and metadata of an existing file
    if o.IsFailure() { return; }
    if key in files {
      if files[key] == content { return Done, files; }
      if !replace { return Escaped, files; }
    }
    o := *;  // create, write and flush the temporary file
    if o.IsFailure() { return; }
    after := files[key := content];
    o := *;  // flush the directory
  }

  class EnvironmentHost {
    const policy: Policy
    var active: Directory
    var siblings: map<Sibling, Directory>
    var runtimes: map<RuntimePath, Bytes>
    /** The migrations that the database has applied. */
    ghost var database: Schema

    constructor (policy: Policy, active: Directory, runtimes: map<RuntimePath, Bytes>, ghost database: Schema)
      ensures this.policy == policy && this.active == active && this.siblings == map[]
      ensures this.runtimes == runtimes && this.database == database
    {
      this.policy, this.active, this.siblings := policy, active, map[];
      this.runtimes, this.database := runtimes, database;
    }

    /** Replace the active pair. `exchanged` tells whether the atomic exchange of
        directories took place, and `kept` where the former pair is then found.

        Whatever the outcome: the active directory is the former one or exactly
        the new pair, the former pair survives the exchange, and no archived
        pair is lost. */
    method ActivateReleasePair(manifest: Bytes, checksum: Bytes)
      returns (o: Outcome, ghost exchanged: bool, ghost kept: Sibling)
      modifies `active, `siblings
      ensures active == if exchanged then Pair(manifest, checksum) else old(active)
      ensures exchanged ==> ValidPair(policy, manifest, Translate(checksum))
      ensures exchanged && old(active) != map[] ==>
        Authoritative(policy, old(active)) && kept in siblings && siblings[kept] == old(active)
      ensures exchanged && old(active) != map[] ==>
        && old(active).Keys == {ManifestFile, ChecksumFile} && old(active)[ManifestFile] in policy
        && var line := policy[old(active)[ManifestFile]].checksumLine;
          Translate(old(active)[ChecksumFile]) == line || Translate(old(active)[ChecksumFile]) == line + [10]
      ensures forall s :: s in old(siblings) && s.Previous? && old(siblings)[s] != map[] ==>
        s in siblings && siblings[s] == old(siblings)[s]
      ensures o.Done? ==> exchanged
      ensures o.Done? && old(active) != map[] ==> kept.Previous?
      ensures o.Done? ==> forall s :: s in siblings && s.Staged? ==> s in old(siblings)
    {
      exchanged, kept := false, Staged(0);
      o := *;  // metadata of the two directories
      if o.IsFailure() { return; }
      var suffix: nat := *;
      if Staged(suffix) in siblings { return Raised, false, kept; }
      var staged := Staged(suffix);
      siblings := siblings[staged := map[]];
      o := *;  // owner and mode of the new directory
      if o.IsFailure() { return; }
      var entered: bool;
      o, entered, kept := TryActivate(staged, manifest, checksum);
      exchanged := entered;
      if !entered && !o.Stopped? {
        // The cleanup of the `finally` clause; its own failure replaces the outcome.
        var cleaned: Outcome := *;
        if cleaned.Done? { siblings := siblings - {staged}; } else { o := cleaned; }
      }
    }

    /** The guarded part of `ActivateReleasePair`. */
    method TryActivate(staged: Sibling, manifest: Bytes, checksum: Bytes)
      returns (o: Outcome, exchanged: bool, ghost kept: Sibling)
      requires staged.Staged? && staged in siblings && siblings[staged] == map[]
      modifies `active, `siblings
      ensures active == if exchanged then Pair(manifest, checksum) else old(active)
      ensures exchanged ==> ValidPair(policy, manifest, Translate(checksum))
      ensures exchanged && old(active) != map[] ==>
        Authoritative(policy, old(active)) && kept in siblings && siblings[kept] == old(active)
      ensures forall s :: s in old(siblings) && s != staged && (s.Previous? ==> old(siblings)[s] != map[]) ==>
        s in siblings && siblings[s] == old(siblings)[s]
      ensures forall s :: s in siblings && s.Staged? ==> s in old(siblings)
      ensures o.Done? ==> exchanged && staged !in siblings
      ensures o.Done? && old(active) != map[] ==> kept.Previous?
      ensures !exchanged ==> forall s :: s in old(siblings) ==> s in siblings
    {
      exchanged, kept := false, staged;
      o := StagePair(staged, manifest, checksum);
      if o.IsFailure() { return; }
      o := *;  // list the active directory
      if o.IsFailure() { return; }
      var occupied := active != map[];
      if occupied && !Authoritative(policy, active) { return Escaped, false, kept; }
      o := *;  // the system call itself
      if o.IsFailure() { return; }
      active, siblings := siblings[staged], siblings[staged := active];
      exchanged := true;
      o := *;  // flush the release directory
      if o.IsFailure() { return; }
      o, kept := Archive(staged, occupied);
    }

    /** Write the new pair into the staged directory and validate it there. */
    method StagePair(staged: Sibling, manifest: Bytes, checksum: Bytes) returns (o: Outcome)
      requires staged in siblings && siblings[staged] == map[]
      modifies `siblings
      ensures staged in siblings && siblings == old(siblings)[staged := siblings[staged]]
      ensures o.Done? ==> siblings[staged] == Pair(manifest, checksum)
      ensures o.Done? ==> ValidPair(policy, manifest, Translate(checksum))
    {
      var directory: Directory;
      o, directory := AtomicWrite(map[], ManifestFile, manifest, false);
      siblings := siblings[staged := directory];
      if o.IsFailure() { return; }
      o, directory := AtomicWrite(directory, ChecksumFile, checksum, false);
      siblings := siblings[staged := directory];
      if o.IsFailure() { return; }
      assert directory == Pair(manifest, checksum);
      o := *;  // metadata, policy loading, reading back
      if o.IsFailure() { return; }
      if !ValidPair(policy, manifest, Translate(checksum)) { return Escaped; }
      o := *;  // flush the staged directory
    }

    /** After the exchange: give the former pair, now in the staged directory, its
        archive name, or remove the empty directory. */
    method Archive(staged: Sibling, occupied: bool) returns (o: Outcome, ghost kept: Sibling)
      requires staged.Staged? && staged in siblings
      requires occupied ==> Authoritative(policy, siblings[staged])
      modifies `siblings
      ensures occupied ==> kept in siblings && siblings[kept] == old(siblings)[staged]
      ensures forall s :: s in old(siblings) && s != staged && (s.Previous? ==> old(siblings)[s] != map[]) ==>
        s in siblings && siblings[s] == old(siblings)[s]
      ensures forall s :: s in siblings && s.Staged? ==> s in old(siblings)
      ensures o.Done? ==> staged !in siblings && (occupied ==> kept.Previous?)
    {
      kept := staged;
      if occupied {
        var time: nat := *;
        var previous := Previous(time, policy[siblings[staged][ManifestFile]].revision);
        if previous in siblings && siblings[previous] != map[] { return Raised, kept; }
        siblings := (siblings - {staged})[previous := siblings[staged]];
        kept := previous;
      } else {
        siblings := siblings - {staged};
      }
      o := *;  // flush the release directory again
    }

    /** `activate`, and `restore_previous` once it has its material: the pair, then
        the runtime files. */
    method Install(environment: Environment, manifest: Bytes, checksum: Bytes, contents: map<RuntimePath, Bytes>)
      returns (o: Outcome)
      requires contents.Keys == OwnedPaths(environment)
      modifies `active, `siblings, `runtimes
      ensures active == old(active) || (active == Pair(manifest, checksum)
          && ValidPair(policy, manifest, Translate(checksum)))
      ensures active != old(active) && old(active) != map[] ==> Authoritative(policy, old(active))
      ensures runtimes == old(runtimes) || active == Pair(manifest, checksum)
      ensures forall k :: k in old(runtimes) ==> k in runtimes
      ensures forall k :: k in runtimes ==>
        || (k in old(runtimes) && runtimes[k] == old(runtimes)[k])
        || (k in contents && runtimes[k] == contents[k])
      ensures o.Done? ==> active == Pair(manifest, checksum) && runtimes == old(runtimes) + contents
      ensures o.Done? && old(active) != map[] ==> Authoritative(policy, old(active))
    {
      ghost var exchanged, kept;
      o, exchanged, kept := ActivateReleasePair(manifest, checksum);
      if o.IsFailure() { return; }
      o := WriteRuntimes(environment, contents);
    }

    /** Rewrite the runtime files of `environment` one after the other. */
    method WriteRuntimes(environment: Environment, contents: map<RuntimePath, Bytes>)
      returns (o: Outcome)
      requires contents.Keys == OwnedPaths(environment)
      modifies `runtimes
      ensures o.Done? ==> runtimes == old(runtimes) + contents
      ensures forall k :: k in old(runtimes) ==> k in runtimes
      ensures forall k :: k in runtimes ==>
        || (k in old(runtimes) && runtimes[k] == old(runtimes)[k])
        || (k in contents && runtimes[k] == contents[k])
    {
      var paths := RuntimePaths(environment);
      for i := 0 to |paths|
        invariant forall k :: k in old(runtimes) ==> k in runtimes
        invariant forall k :: k in runtimes ==>
          || (k in old(runtimes) && runtimes[k] == old(runtimes)[k])
          || (k in contents && runtimes[k] == contents[k])
        invariant forall j :: 0 <= j < i ==> paths[j] in runtimes && runtimes[paths[j]] == contents[paths[j]]
      {
        var step, after := AtomicWrite(runtimes, paths[i], contents[paths[i]], true);
        runtimes := after;
        if step.IsFailure() { return step; }
      }
      forall k | k in contents
        ensures k in runtimes && runtimes[k] == contents[k]
      {
        assert k == paths[0] || k == paths[1];
      }
      assert runtimes.Keys == old(runtimes).Keys + contents.Keys;
      return Done;
    }
  }
}
