/** The rollback journal of a deployment: written file by file, its version
    marker last, and read back only when it is complete. */
module DeploymentJournal {
  import opened Newlines
  import opened Outcomes
  import opened Releases

  type DeploymentId = string

  const VERSION: Bytes := [50, 10]

  /** The files of `deployment-journals/<id>` and of its `previous` directory. */
  datatype Journal = Journal(root: Directory, previous: Option<Directory>)

  /** A release pair together with the runtime files that belong to it. */
  datatype Material = Material(manifest: Bytes, checksum: Bytes, runtimes: map<RuntimePath, Bytes>)

  /** The files that a material fills. */
  function MaterialNames(environment: Environment): set<FileName> {
    if environment.Staging? then {ManifestFile, ChecksumFile, RuntimeFile(OwnRuntime), RuntimeFile(MonitoringRuntime)}
    else {ManifestFile, ChecksumFile, RuntimeFile(OwnRuntime)}
  }

  /** The ASCII text `staging` or `production` and a newline. */
  function EnvironmentLine(environment: Environment): Bytes {
    if environment.Staging? then [115, 116, 97, 103, 105, 110, 103, 10]
    else [112, 114, 111, 100, 117, 99, 116, 105, 111, 110, 10]
  }

  predicate Usable(environment: Environment, m: Material) {
    m.manifest != [] && m.checksum != []
    && m.runtimes.Keys == OwnedPaths(environment)
    && (forall k :: k in m.runtimes ==> m.runtimes[k] != [])
  }

  predicate NoEmptyFile(directory: Directory) {
    forall name :: name in directory ==> directory[name] != []
  }

  /** `previous_journal_material`: what a rollback would restore, if anything. */
  function PreviousMaterial(journal: Journal, environment: Environment): (r: Option<Material>)
    ensures r.Some? ==> Usable(environment, r.value)
  {
    if journal.root.Keys != {VersionFile, EnvironmentFile} + MaterialNames(environment) then None
    else if journal.previous.None? || journal.previous.value.Keys != MaterialNames(environment) then None
    else if journal.root[VersionFile] != VERSION then None
    else if journal.root[EnvironmentFile] != EnvironmentLine(environment) then None
    else if !NoEmptyFile(journal.root) || !NoEmptyFile(journal.previous.value) then None
    else
      var previous := journal.previous.value;
      Some(Material(previous[ManifestFile], previous[ChecksumFile],
                    map k | k in OwnedPaths(environment) :: previous[RuntimeFile(k)]))
  }

  /** Which files a journal that is accepted consists of, and what the marker and the
      environment file hold. */
  lemma AcceptedJournalIs(journal: Journal, environment: Environment)
    requires PreviousMaterial(journal, environment).Some?
    ensures journal.previous.Some?
    ensures environment.Staging? ==>
      && journal.root.Keys == {VersionFile, EnvironmentFile, ManifestFile, ChecksumFile, RuntimeFile(OwnRuntime),
                               RuntimeFile(MonitoringRuntime)}
      && journal.previous.value.Keys == {ManifestFile, ChecksumFile, RuntimeFile(OwnRuntime),
                                         RuntimeFile(MonitoringRuntime)}
      && journal.root[VersionFile] == Ascii("2\n") && journal.root[EnvironmentFile] == Ascii("staging\n")
    ensures environment.Production? ==>
      && journal.root.Keys == {VersionFile, EnvironmentFile, ManifestFile, ChecksumFile, RuntimeFile(OwnRuntime)}
      && journal.previous.value.Keys == {ManifestFile, ChecksumFile, RuntimeFile(OwnRuntime)}
      && journal.root[VersionFile] == Ascii("2\n") && journal.root[EnvironmentFile] == Ascii("production\n")
    ensures forall name :: name in journal.root ==> journal.root[name] != []
    ensures forall name :: name in journal.previous.value ==> journal.previous.value[name] != []
  {
    hide PreviousMaterial, Ascii;
    TextsAre();
    JournalHas(journal, environment);
  }

  lemma TextsAre()
    ensures VERSION == Ascii("2\n")
    ensures EnvironmentLine(Staging) == Ascii("staging\n") && EnvironmentLine(Production) == Ascii("production\n")
  {
  }

  lemma JournalHas(journal: Journal, environment: Environment)
    requires PreviousMaterial(journal, environment).Some?
    ensures journal.root.Keys == {VersionFile, EnvironmentFile} + MaterialNames(environment)
    ensures journal.previous.Some? && journal.previous.value.Keys == MaterialNames(environment)
    ensures journal.root[VersionFile] == VERSION && journal.root[EnvironmentFile] == EnvironmentLine(environment)
    ensures NoEmptyFile(journal.root) && NoEmptyFile(journal.previous.value)
  {
  }

  /** The version marker has its full content. */
  predicate Marked(journal: Journal) {
    VersionFile in journal.root && journal.root[VersionFile] == VERSION
  }

  class JournalStore {
    var journals: map<DeploymentId, Journal>

    constructor ()
      ensures journals == map[]
    {
      journals := map[];
    }

    /** Write a complete journal for `id`. Whatever the outcome, at whatever
        byte the writing ends: a journal without its full marker is rejected by
        `PreviousMaterial` for every environment, and one with it returns
        exactly the captured previous material, only for its own environment. */
    method Snapshot(id: DeploymentId, environment: Environment, target: Material, previous: Material)
      returns (o: Outcome)
      modifies this
      ensures id in old(journals) ==> journals == old(journals) && !o.Done?
      ensures journals == old(journals) || (id in journals && journals == old(journals)[id := journals[id]])
      ensures id !in old(journals) && id in journals ==>
        forall e :: PreviousMaterial(journals[id], e) == (if Marked(journals[id])
            && e == environment then Some(previous) else None)
      ensures o.Done? ==> id in journals && Marked(journals[id])
      ensures o.Done? ==>
        && ManifestFile in journals[id].root && journals[id].root[ManifestFile] == target.manifest
        && ChecksumFile in journals[id].root && journals[id].root[ChecksumFile] == target.checksum
        && forall k :: k in target.runtimes ==>
          RuntimeFile(k) in journals[id].root && journals[id].root[RuntimeFile(k)] == target.runtimes[k]
      ensures o.Done? ==> Usable(environment, target) && Usable(environment, previous)
    {
      if !Usable(environment, target) || !Usable(environment, previous) || id in journals { return Raised; }
      o := *;
      if o.IsFailure() { return; }
      var journal;
      o, journal := WriteTree(environment, target, previous);
      journals := journals[id := journal];
    }
  }

  /** Everything `journal_snapshot` does below the new directory; `journal` is
      what is on disk when it ends. */
  method WriteTree(environment: Environment, target: Material, previous: Material)
    returns (o: Outcome, journal: Journal)
    requires Usable(environment, target) && Usable(environment, previous)
    ensures forall e :: PreviousMaterial(journal, e) == (if Marked(journal)
        && e == environment then Some(previous) else None)
    ensures o.Done? ==> Marked(journal) && Holds(journal.root, environment, target)
  {
    journal := Journal(map[], None);
    o := *;  // owner and mode of the directory, flush of its parent
    if o.IsFailure() { return; }
    journal := Journal(map[], Some(map[]));
    o := *;
    if o.IsFailure() { return; }
    var root, inner;
    o, root := WriteNew(map[], EnvironmentFile, EnvironmentLine(environment));
    journal := journal.(root := root);
    if o.IsFailure() { return; }
    o, root := WriteMaterial(root, environment, target);
    journal := journal.(root := root);
    if o.IsFailure() { return; }
    o, inner := WriteMaterial(map[], environment, previous);
    journal := journal.(previous := Some(inner));
    if o.IsFailure() { return; }
    o := *;  // flush `previous`
    if o.IsFailure() { return; }
    o, root := WriteNew(root, VersionFile, VERSION);
    Capture(journal.(root := root), journal, environment, target, previous);
    journal := journal.(root := root);
    if o.IsFailure() { return; }
    o := *;  // flush the journal directory
  }

  /** What a journal directory holds of `m` under `name`. */
  function Content(m: Material, name: FileName): Bytes
    requires name.RuntimeFile? ==> name.path in m.runtimes
  {
    match name
    case ManifestFile => m.manifest
    case ChecksumFile => m.checksum
    case RuntimeFile(k) => m.runtimes[k]
    case _ => []
  }

  /** `directory` holds the files of `m` in full. */
  predicate Holds(directory: Directory, environment: Environment, m: Material) {
    && Usable(environment, m)
    && forall name :: name in MaterialNames(environment) ==> name in directory && directory[name] == Content(m, name)
  }

  /** The pair, then the runtime files. */
  method WriteMaterial(directory: Directory, environment: Environment, m: Material)
    returns (o: Outcome, after: Directory)
    requires Usable(environment, m) && VersionFile !in directory
    ensures VersionFile !in after
    ensures o.Done? ==> Grown(directory, after, MaterialNames(environment), m)
  {
    o, after := WriteNew(directory, ManifestFile, m.manifest);
    if o.IsFailure() { return; }
    o, after := WriteNew(after, ChecksumFile, m.checksum);
    if o.IsFailure() { return; }
    var pair := after;
    assert Grown(directory, pair, {ManifestFile, ChecksumFile}, m);
    o, after := WriteRuntimeFiles(pair, environment, m);
    if o.Done? {
      GrownTwice(directory, pair, after, {ManifestFile, ChecksumFile}, RuntimeNames(environment), m);
      assert {ManifestFile, ChecksumFile} + RuntimeNames(environment) == MaterialNames(environment);
    }
  }

  method WriteRuntimeFiles(directory: Directory, environment: Environment, m: Material)
    returns (o: Outcome, after: Directory)
    requires Usable(environment, m) && VersionFile !in directory
    ensures VersionFile !in after
    ensures o.Done? ==> Grown(directory, after, RuntimeNames(environment), m)
  {
    after := directory;
    var paths := RuntimePaths(environment);
    ghost var names: set<FileName> := {};
    for i := 0 to |paths|
      invariant VersionFile !in after
      invariant names == if i == 0 then {} else if i == 1 then {RuntimeFile(OwnRuntime)} else RuntimeNames(environment)
      invariant Grown(directory, after, names, m)
    {
      var next;
      o, next := WriteNew(after, RuntimeFile(paths[i]), m.runtimes[paths[i]]);
      if o.IsFailure() { return o, next; }
      GrownTwice(directory, after, next, names, {RuntimeFile(paths[i])}, m);
      names := names + {RuntimeFile(paths[i])};
      after := next;
    }
    o := Done;
  }

  function RuntimeNames(environment: Environment): set<FileName> {
    if environment.Staging? then {RuntimeFile(OwnRuntime), RuntimeFile(MonitoringRuntime)}
    else {RuntimeFile(OwnRuntime)}
  }

  /** `after` is `before` with the files `names` of `m` added in full. */
  ghost predicate Grown(before: Directory, after: Directory, names: set<FileName>, m: Material) {
    after.Keys == before.Keys + names
    && (forall name :: name in names && name.RuntimeFile? ==> name.path in m.runtimes)
    && forall name :: name in after ==>
      after[name] == if name in names then Content(m, name) else before[name]
  }

  lemma GrownTwice(a: Directory, b: Directory, c: Directory, left: set<FileName>, right: set<FileName>, m: Material)
    requires Grown(a, b, left, m) && Grown(b, c, right, m)
    ensures Grown(a, c, left + right, m)
  {
  }

  /** The files of `m` in a journal directory. */
  function MaterialFiles(environment: Environment, m: Material): Directory
    requires Usable(environment, m)
  {
    map name | name in MaterialNames(environment) :: Content(m, name)
  }

  /** A snapshot that was written to its end. */
  function CompleteJournal(environment: Environment, target: Material, previous: Material): Journal
    requires Usable(environment, target) && Usable(environment, previous)
  {
    Journal(MaterialFiles(environment, target)[EnvironmentFile := EnvironmentLine(environment)][VersionFile := VERSION],
            Some(MaterialFiles(environment, previous)))
  }

  lemma CompleteJournalReturns(environment: Environment, target: Material, previous: Material)
    requires Usable(environment, target) && Usable(environment, previous)
    ensures var journal := CompleteJournal(environment, target, previous);
      && Marked(journal)
      && forall e :: PreviousMaterial(journal, e) == if e == environment then Some(previous) else None
  {
    var journal := CompleteJournal(environment, target, previous);
    var root := MaterialFiles(environment, target)[EnvironmentFile := EnvironmentLine(environment)];
    Capture(journal, Journal(root, journal.previous), environment, target, previous);
  }

  /** `open("xb")`, write, flush: a failure may leave no file or a torn one. */
  method WriteNew(directory: Directory, name: FileName, content: Bytes) returns (o: Outcome, after: Directory)
    ensures o.Done? ==> name !in directory && after == directory[name := content]
    ensures after == directory || (name in after && after[name] <= content && after == directory[name := after[name]])
    ensures forall k :: k in directory ==> k in after && after[k] == directory[k]
  {
    after := directory;
    if name in directory { return Raised, after; }
    o := *;
    if o.IsFailure() { return; }
    var written :| 0 <= written <= |content|;
    after := directory[name := content[..written]];
    o := *;  // the rest of the write, owner, mode, flush
    if o.Done? { after := directory[name := content]; }
  }

  /** A finished snapshot but for its marker, then any prefix of the marker. */
  lemma Capture(journal: Journal, unmarked: Journal, environment: Environment, target: Material, previous: Material)
    requires unmarked.previous.Some? && journal.previous == unmarked.previous
    requires Holds(unmarked.root, environment, target) && Holds(unmarked.previous.value, environment, previous)
    requires unmarked.root.Keys == {EnvironmentFile} + MaterialNames(environment)
    requires unmarked.root[EnvironmentFile] == EnvironmentLine(environment)
    requires unmarked.previous.value.Keys == MaterialNames(environment)
    requires journal.root == unmarked.root
             || (VersionFile in journal.root && journal.root == unmarked.root[VersionFile := journal.root[VersionFile]])
    ensures forall e :: PreviousMaterial(journal, e) == (if Marked(journal)
        && e == environment then Some(previous) else None)
  {
    forall e
      ensures PreviousMaterial(journal, e) == (if Marked(journal) && e == environment then Some(previous) else None)
    {
      if Marked(journal) {
        assert journal.root[EnvironmentFile] == EnvironmentLine(environment);
        if e == environment {
          CaptureMarked(journal, environment, target, previous);
        } else {
          assert EnvironmentLine(e)[0] != EnvironmentLine(environment)[0];
        }
      }
    }
  }

  lemma CaptureMarked(journal: Journal, environment: Environment, target: Material, previous: Material)
    requires journal.previous.Some?
    requires Holds(journal.root, environment, target) && Holds(journal.previous.value, environment, previous)
    requires journal.root.Keys == {VersionFile, EnvironmentFile} + MaterialNames(environment)
    requires journal.root[EnvironmentFile] == EnvironmentLine(environment) && Marked(journal)
    requires journal.previous.value.Keys == MaterialNames(environment)
    ensures PreviousMaterial(journal, environment) == Some(previous)
  {
    HoldsNoEmptyFile(journal.root, environment, target);
    HoldsNoEmptyFile(journal.previous.value, environment, previous);
    var r := PreviousMaterial(journal, environment);
    forall k | k in OwnedPaths(environment)
      ensures r.value.runtimes[k] == previous.runtimes[k]
    {
      assert RuntimeFile(k) in MaterialNames(environment);
    }
    assert r.value.runtimes == previous.runtimes;
  }

  lemma HoldsNoEmptyFile(directory: Directory, environment: Environment, m: Material)
    requires Holds(directory, environment, m)
    requires forall name :: name in directory && name !in MaterialNames(environment) ==> directory[name] != []
    ensures NoEmptyFile(directory)
  {
  }
}
