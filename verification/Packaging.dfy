/** Signed packages: what build writes is what verify accepts. */
module Packaging {
  import opened Wrappers
  import opened Ordering

  type Bytes = seq<bv8>

  // JSON encoding, hashing and signing are injective, so each is a constructor.
  datatype Content =
    | Blob(bytes: Bytes)
    | ManifestJson(manifest: Manifest)
    | SbomJson(sbom: Sbom)
    | SignatureJson(signature: Signature)

  datatype Digest = Sha256(content: Content)

  datatype Manifest = Manifest(componentName: string, componentVersion: string, files: map<string, Digest>)

  datatype ComponentKind = FileComponent | LibraryComponent

  // The bom-ref texts: file:path, pkg:pypi/name@version and pkg:generic/name@version, or none.
  datatype BomRef = NoRef | FileRef(path: string) | LibraryRef(name: string, version: string) | ApplicationRef(name: string, version: string)

  datatype Component = Component(kind: ComponentKind, name: string, version: string, bomRef: BomRef, sha256: Option<Digest>)

  datatype Dependency = Dependency(ref: BomRef, dependsOn: seq<BomRef>)

  datatype BomFormat = CycloneDX | OtherFormat

  datatype Sbom = Sbom(bomFormat: BomFormat, application: BomRef, components: seq<Component>, dependencies: seq<Dependency>)

  datatype SignedPayload = SignedPayload(manifest: Manifest, sbom: Sbom)

  datatype Mac = Hmac(secret: Bytes, payload: SignedPayload)

  datatype Signature = Signature(algorithm: string, keyId: string, value: Mac)

  datatype Signer = Signer(keyId: string, algorithm: string, secret: Bytes)
  {
    function Sign(payload: SignedPayload): Mac { Hmac(secret, payload) }

    predicate Verify(payload: SignedPayload, value: Mac) { Sign(payload) == value }
  }

  datatype Entry = Entry(name: string, content: Content, fileSize: nat, compressSize: nat)

  type Archive = seq<Entry>

  // The size of an entry before and after compression.
  datatype Zip = Zip(size: Content -> nat, packed: Content -> nat)

  datatype ArchiveLimits = ArchiveLimits(maxEntries: int, maxEntryBytes: int, maxTotalBytes: int, maxRatio: real)

  datatype PackageError =
    | BadPath
    | DuplicatePaths
    | TooManyEntries
    | SizeExceeded
    | BadCompressionSize
    | RatioExceeded
    | Unreadable
    | UnsignedOrMissingPaths
    | SignerMismatch
    | ChecksumMismatch
    | SbomIncomplete
    | SbomGraphIncomplete
    | BadSignature

  // Where a package keeps its own documents.
  datatype Layout = Layout(manifest: string, sbom: string, signature: string)
  {
    function Reserved(): set<string> { {manifest, sbom, signature} }

    predicate Proper() {
      && manifest != sbom && manifest != signature && sbom != signature
      && NUL !in manifest && NUL !in sbom && NUL !in signature
    }
  }

  const NUL := '\0'

  const META_INF := Layout("META-INF/manifest.json", "META-INF/sbom.cdx.json", "META-INF/signature.json")

  lemma MetaInfIsProper()
    ensures META_INF.Proper()
  {
  }

  // --- Build ---

  // Whether some segment of the path is "..".
  predicate Climbs(path: string) {
    Climbing(path, "")
  }

  predicate Climbing(path: string, segment: string) {
    if path == [] then segment == ".."
    else if path[0] == '/' then segment == ".." || Climbing(path[1..], "")
    else Climbing(path[1..], segment + [path[0]])
  }

  predicate BadName(path: string) {
    (path != [] && path[0] == '/') || Climbs(path)
  }

  function ManifestOf(files: map<string, Content>, name: string, version: string): Manifest {
    Manifest(name, version, map path | path in files :: Sha256(files[path]))
  }

  function FileComponents(paths: seq<string>, digests: map<string, Digest>): seq<Component>
    requires forall i :: 0 <= i < |paths| ==> paths[i] in digests
  {
    seq(|paths|, i requires 0 <= i < |paths| =>
      Component(FileComponent, paths[i], "", FileRef(paths[i]), Some(digests[paths[i]])))
  }

  function LibraryComponents(names: seq<string>, versions: map<string, string>): seq<Component>
    requires forall i :: 0 <= i < |names| ==> names[i] in versions
  {
    seq(|names|, i requires 0 <= i < |names| =>
      Component(LibraryComponent, names[i], versions[names[i]], LibraryRef(names[i], versions[names[i]]), None))
  }

  function References(components: seq<Component>): seq<BomRef> {
    seq(|components|, i requires 0 <= i < |components| => components[i].bomRef)
  }

  function SbomOf(manifest: Manifest, dependencies: map<string, string>): Sbom {
    var components := FileComponents(SortedStrings(manifest.files.Keys), manifest.files)
                      + LibraryComponents(SortedStrings(dependencies.Keys), dependencies);
    var application := ApplicationRef(manifest.componentName, manifest.componentVersion);
    Sbom(CycloneDX, application, components,
         [Dependency(application, References(components))]
         + seq(|components|, i requires 0 <= i < |components| => Dependency(components[i].bomRef, [])))
  }

  // An entry's name ends before its first NUL.
  function Stored(name: string): (r: string)
    ensures NUL !in r && (NUL !in name ==> r == name)
  {
    if name == [] || name[0] == NUL then [] else [name[0]] + Stored(name[1..])
  }

  function Packed(entries: map<string, Content>, names: seq<string>, zip: Zip): Archive
    requires forall i :: 0 <= i < |names| ==> names[i] in entries
  {
    seq(|names|, i requires 0 <= i < |names| =>
      Entry(Stored(names[i]), entries[names[i]], zip.size(entries[names[i]]), zip.packed(entries[names[i]])))
  }

  function SignatureOf(signer: Signer, payload: SignedPayload): Signature {
    Signature(signer.algorithm, signer.keyId, signer.Sign(payload))
  }

  function PayloadOf(files: map<string, Content>, name: string, version: string, dependencies: map<string, string>): SignedPayload {
    var manifest := ManifestOf(files, name, version);
    SignedPayload(manifest, SbomOf(manifest, dependencies))
  }

  // The package's own entries replace files of the same name.
  function EntriesOf(l: Layout, files: map<string, Content>, signer: Signer, payload: SignedPayload): map<string, Content> {
    files[l.manifest := ManifestJson(payload.manifest)][l.sbom := SbomJson(payload.sbom)][l.signature := SignatureJson(SignatureOf(signer, payload))]
  }

  // The archive of these entries.
  function ArchiveOf(l: Layout, files: map<string, Content>, signer: Signer, payload: SignedPayload, zip: Zip): Archive {
    var entries := EntriesOf(l, files, signer, payload);
    Packed(entries, SortedStrings(entries.Keys), zip)
  }

  function Build(l: Layout, files: map<string, Content>, signer: Signer, name: string, version: string, dependencies: map<string, string>, zip: Zip)
    : Result<Archive, PackageError>
  {
    if files == map[] || exists path :: path in files && BadName(path) then Err(BadPath)
    else
      Ok(ArchiveOf(l, files, signer, PayloadOf(files, name, version, dependencies), zip))
  }

  // --- Verify ---

  predicate DistinctNames(archive: Archive) {
    forall i, j :: 0 <= i < j < |archive| ==> archive[i].name != archive[j].name
  }

  function NamesOf(archive: Archive): set<string> {
    set e | e in archive :: e.name
  }

  function TotalSize(archive: Archive): nat {
    if archive == [] then 0 else TotalSize(archive[..|archive| - 1]) + archive[|archive| - 1].fileSize
  }

  // The checks on one entry, with everything up to it counted in.
  function EntryFault(e: Entry, totalSize: nat, limits: ArchiveLimits): Option<PackageError> {
    if e.fileSize > limits.maxEntryBytes || totalSize > limits.maxTotalBytes then Some(SizeExceeded)
    else if e.fileSize != 0 && e.compressSize == 0 then Some(BadCompressionSize)
    else if e.compressSize != 0 && e.fileSize as real / e.compressSize as real > limits.maxRatio then Some(RatioExceeded)
    else None
  }

  function LimitFault(archive: Archive, limits: ArchiveLimits): Option<PackageError> {
    if archive == [] then None
    else
      var earlier := LimitFault(archive[..|archive| - 1], limits);
      if earlier.Some? then earlier else EntryFault(archive[|archive| - 1], TotalSize(archive), limits)
  }

  // What the archive holds under a name; the names are distinct.
  function Read(archive: Archive, name: string): Option<Content> {
    if archive == [] then None else if archive[0].name == name then Some(archive[0].content) else Read(archive[1..], name)
  }

  // File components by name, the last of a name winning; None where one has no SHA-256.
  function SbomFiles(components: seq<Component>): Option<map<string, Digest>> {
    if components == [] then Some(map[])
    else
      var last := components[|components| - 1];
      match SbomFiles(components[..|components| - 1])
      case None => None
      case Some(files) =>
        if last.kind != FileComponent then Some(files)
        else if last.sha256.None? then None
        else Some(files[last.name := last.sha256.value])
  }

  predicate ChecksumsHold(archive: Archive, files: map<string, Digest>) {
    forall path :: path in files ==> Read(archive, path).Some? && Sha256(Read(archive, path).value) == files[path]
  }

  function ContentFault(l: Layout, archive: Archive, signer: Signer, manifest: Manifest, sbom: Sbom, signature: Signature): Option<PackageError> {
    if NamesOf(archive) != manifest.files.Keys + l.Reserved() then Some(UnsignedOrMissingPaths)
    else if signature.algorithm != signer.algorithm || signature.keyId != signer.keyId then Some(SignerMismatch)
    else if !ChecksumsHold(archive, manifest.files) then Some(ChecksumMismatch)
    else if SbomFiles(sbom.components).None? then Some(Unreadable)
    else if SbomFiles(sbom.components).value != manifest.files then Some(SbomIncomplete)
    else if sbom.bomFormat != CycloneDX || sbom.dependencies == [] || exists c :: c in sbom.components && c.bomRef == NoRef then
      Some(SbomGraphIncomplete)
    else if !signer.Verify(SignedPayload(manifest, sbom), signature.value) then Some(BadSignature)
    else None
  }

  // The three parsed documents, if they are there and are what they should be.
  function Documents(l: Layout, archive: Archive): Option<(Manifest, Sbom, Signature)> {
    match (Read(archive, l.manifest), Read(archive, l.sbom), Read(archive, l.signature))
    case (Some(ManifestJson(m)), Some(SbomJson(b)), Some(SignatureJson(s))) => Some((m, b, s))
    case _ => None
  }

  function ArchiveFault(l: Layout, archive: Archive, signer: Signer, limits: ArchiveLimits): Option<PackageError> {
    if !DistinctNames(archive) then Some(DuplicatePaths)
    else if |archive| > limits.maxEntries then Some(TooManyEntries)
    else if LimitFault(archive, limits).Some? then LimitFault(archive, limits)
    else
      match Documents(l, archive)
      case None => Some(Unreadable)
      case Some((m, b, s)) => ContentFault(l, archive, signer, m, b, s)
  }

  lemma {:induction false} LimitFaultIsEarly(archive: Archive, n: nat, limits: ArchiveLimits)
    requires n <= |archive| && LimitFault(archive[..n], limits).Some?
    ensures LimitFault(archive, limits) == LimitFault(archive[..n], limits)
    decreases |archive|
  {
    if n < |archive| {
      assert archive[..|archive| - 1][..n] == archive[..n];
      LimitFaultIsEarly(archive[..|archive| - 1], n, limits);
    } else {
      assert archive[..n] == archive;
    }
  }

  /** verify_signed_package(): None is acceptance. */
  method VerifySignedPackage(l: Layout, archive: Archive, signer: Signer, limits: ArchiveLimits) returns (fault: Option<PackageError>)
    ensures fault == ArchiveFault(l, archive, signer, limits)
  {
    if !DistinctNames(archive) {
      return Some(DuplicatePaths);
    }
    if |archive| > limits.maxEntries {
      return Some(TooManyEntries);
    }
    var totalSize := 0;
    for i := 0 to |archive|
      invariant totalSize == TotalSize(archive[..i]) && LimitFault(archive[..i], limits).None?
    {
      var item := archive[i];
      assert archive[..i + 1][..i] == archive[..i];
      totalSize := totalSize + item.fileSize;
      var itemFault := EntryFault(item, totalSize, limits);
      if itemFault.Some? {
        LimitFaultIsEarly(archive, i + 1, limits);
        return itemFault;
      }
    }
    assert archive[..|archive|] == archive;
    var documents := Documents(l, archive);
    if documents.None? {
      return Some(Unreadable);
    }
    return ContentFault(l, archive, signer, documents.value.0, documents.value.1, documents.value.2);
  }

  // --- What verify accepts of what build wrote ---

  // No entry too large, badly or too well compressed, and all of them together not too large.
  ghost predicate WithinLimits(archive: Archive, limits: ArchiveLimits) {
    && |archive| <= limits.maxEntries
    && (forall i :: 0 <= i < |archive| ==> EntryFault(archive[i], 0, limits).None?)
    && (archive != [] ==> TotalSize(archive) <= limits.maxTotalBytes)
  }

  lemma {:induction false} LimitsAreTotals(archive: Archive, limits: ArchiveLimits)
    requires limits.maxTotalBytes > 0
    ensures LimitFault(archive, limits).None? <==>
      (forall i :: 0 <= i < |archive| ==> EntryFault(archive[i], 0, limits).None?) && TotalSize(archive) <= limits.maxTotalBytes
  {
    if archive != [] {
      LimitsAreTotals(archive[..|archive| - 1], limits);
    }
  }

  lemma {:induction false} ReadsEntry(archive: Archive, i: nat)
    requires DistinctNames(archive) && i < |archive|
    ensures Read(archive, archive[i].name) == Some(archive[i].content)
  {
    if i > 0 { ReadsEntry(archive[1..], i - 1); }
  }

  // No path that the archive would cut short.
  predicate Plain(files: map<string, Content>) {
    forall path :: path in files ==> NUL !in path
  }

  lemma PackedReads(entries: map<string, Content>, names: seq<string>, zip: Zip)
    requires Plain(entries)
    requires (forall i :: 0 <= i < |names| ==> names[i] in entries) && (forall i, j :: 0 <= i < j < |names| ==> names[i] != names[j])
    ensures DistinctNames(Packed(entries, names, zip)) && NamesOf(Packed(entries, names, zip)) == Elements(names)
    ensures forall n :: n in names ==> n in entries && Read(Packed(entries, names, zip), n) == Some(entries[n])
  {
    var archive := Packed(entries, names, zip);
    forall n | n in names ensures n in NamesOf(archive) && n in entries && Read(archive, n) == Some(entries[n]) {
      var i :| 0 <= i < |names| && names[i] == n;
      assert archive[i] in archive;
      ReadsEntry(archive, i);
    }
  }

  function Listed(paths: seq<string>, digests: map<string, Digest>): map<string, Digest> {
    map p | p in paths && p in digests :: digests[p]
  }

  lemma {:induction false} FileComponentsListed(paths: seq<string>, digests: map<string, Digest>)
    requires forall i :: 0 <= i < |paths| ==> paths[i] in digests
    ensures SbomFiles(FileComponents(paths, digests)) == Some(Listed(paths, digests))
  {
    if paths == [] {
      assert FileComponents(paths, digests) == [];
    } else {
      var n := |paths| - 1;
      var components := FileComponents(paths, digests);
      FileComponentsListed(paths[..n], digests);
      assert components[..n] == FileComponents(paths[..n], digests);
      assert components[n] == Component(FileComponent, paths[n], "", FileRef(paths[n]), Some(digests[paths[n]]));
      assert paths == paths[..n] + [paths[n]];
      assert Listed(paths, digests) == Listed(paths[..n], digests)[paths[n] := digests[paths[n]]];
    }
  }

  lemma {:induction false} LibrariesAddNothing(components: seq<Component>, libraries: seq<Component>)
    requires forall i :: 0 <= i < |libraries| ==> libraries[i].kind == LibraryComponent
    ensures SbomFiles(components + libraries) == SbomFiles(components)
  {
    if libraries == [] {
      assert components + libraries == components;
    } else {
      var n := |libraries| - 1;
      LibrariesAddNothing(components, libraries[..n]);
      assert (components + libraries)[..|components| + n] == components + libraries[..n];
    }
  }

  lemma SbomListsFiles(manifest: Manifest, dependencies: map<string, string>)
    ensures SbomFiles(SbomOf(manifest, dependencies).components) == Some(manifest.files)
  {
    var paths, names := SortedStrings(manifest.files.Keys), SortedStrings(dependencies.Keys);
    FileComponentsListed(paths, manifest.files);
    LibrariesAddNothing(FileComponents(paths, manifest.files), LibraryComponents(names, dependencies));
    assert Listed(paths, manifest.files) == manifest.files;
  }

  lemma SbomIsComplete(manifest: Manifest, dependencies: map<string, string>)
    ensures var sbom := SbomOf(manifest, dependencies);
      sbom.bomFormat == CycloneDX && sbom.dependencies != [] && forall c :: c in sbom.components ==> c.bomRef != NoRef
  {
  }

  lemma EntriesAre(l: Layout, files: map<string, Content>, signer: Signer, payload: SignedPayload)
    requires l.Proper()
    ensures var entries := EntriesOf(l, files, signer, payload);
      && entries.Keys == files.Keys + l.Reserved()
      && entries[l.manifest] == ManifestJson(payload.manifest) && entries[l.sbom] == SbomJson(payload.sbom)
      && entries[l.signature] == SignatureJson(SignatureOf(signer, payload))
      && forall path :: path in files && path !in l.Reserved() ==> entries[path] == files[path]
  {
  }

  // No document can hold its own digest, directly or through the documents it covers.
  lemma NoDocumentHoldsItself(files: map<string, Content>, signer: Signer, name: string, version: string, dependencies: map<string, string>, path: string)
    requires path in files
    ensures var payload := PayloadOf(files, name, version, dependencies);
      files[path] != ManifestJson(payload.manifest) && files[path] != SbomJson(payload.sbom)
      && files[path] != SignatureJson(SignatureOf(signer, payload))
  {
    var payload := PayloadOf(files, name, version, dependencies);
    assert payload.manifest.files[path] == Sha256(files[path]);
    assert payload.manifest.files[path] < payload.manifest;
    SbomListsFiles(payload.manifest, dependencies);
    SbomHoldsDigests(payload.sbom.components, path);
  }

  lemma {:induction false} SbomHoldsDigests(components: seq<Component>, path: string)
    requires SbomFiles(components).Some? && path in SbomFiles(components).value
    ensures exists c :: c in components && c.sha256 == Some(SbomFiles(components).value[path])
  {
    var n := |components| - 1;
    if !(components[n].kind == FileComponent && components[n].name == path) {
      SbomHoldsDigests(components[..n], path);
    }
  }

  lemma BuiltArchive(l: Layout, files: map<string, Content>, signer: Signer, payload: SignedPayload, zip: Zip)
    requires l.Proper() && Plain(files)
    ensures var archive := ArchiveOf(l, files, signer, payload, zip);
      && DistinctNames(archive) && NamesOf(archive) == files.Keys + l.Reserved()
      && forall path :: path in files.Keys + l.Reserved() ==> Read(archive, path) == Some(EntriesOf(l, files, signer, payload)[path])
  {
    hide EntriesOf, Packed, Read, NamesOf, DistinctNames, Elements;
    var entries := EntriesOf(l, files, signer, payload);
    EntriesAre(l, files, signer, payload);
    PackedReads(entries, SortedStrings(entries.Keys), zip);
    SortedAreAll(entries.Keys);
  }

  lemma SortedAreAll(names: set<string>)
    ensures Elements(SortedStrings(names)) == names
  {
  }

  // The payload lists the digests of these files, and no file is one of the package's own documents.
  ghost predicate Covers(payload: SignedPayload, files: map<string, Content>, signer: Signer) {
    && payload.manifest.files.Keys == files.Keys
    && forall path :: path in files ==>
         && payload.manifest.files[path] == Sha256(files[path])
         && files[path] != ManifestJson(payload.manifest) && files[path] != SbomJson(payload.sbom)
         && files[path] != SignatureJson(SignatureOf(signer, payload))
  }

  lemma PayloadCovers(files: map<string, Content>, signer: Signer, name: string, version: string, dependencies: map<string, string>)
    ensures Covers(PayloadOf(files, name, version, dependencies), files, signer)
  {
    forall path | path in files
      ensures var payload := PayloadOf(files, name, version, dependencies);
        files[path] != ManifestJson(payload.manifest) && files[path] != SbomJson(payload.sbom)
        && files[path] != SignatureJson(SignatureOf(signer, payload))
    {
      NoDocumentHoldsItself(files, signer, name, version, dependencies, path);
    }
  }

  lemma BuiltChecksums(l: Layout, files: map<string, Content>, signer: Signer, payload: SignedPayload, archive: Archive)
    requires l.Proper() && Covers(payload, files, signer)
    requires forall path :: path in files ==> Read(archive, path) == Some(EntriesOf(l, files, signer, payload)[path])
    ensures ChecksumsHold(archive, payload.manifest.files) <==> files.Keys !! l.Reserved()
  {
  }

  lemma BuiltDocuments(l: Layout, files: map<string, Content>, signer: Signer, payload: SignedPayload, zip: Zip)
    requires l.Proper() && Plain(files)
    ensures Documents(l, ArchiveOf(l, files, signer, payload, zip)) == Some((payload.manifest, payload.sbom, SignatureOf(signer, payload)))
  {
    BuiltArchive(l, files, signer, payload, zip);
    EntriesAre(l, files, signer, payload);
    assert l.manifest in l.Reserved() && l.sbom in l.Reserved() && l.signature in l.Reserved();
  }

  lemma BuiltContent(l: Layout, files: map<string, Content>, signer: Signer, payload: SignedPayload, zip: Zip)
    requires l.Proper() && Plain(files) && Covers(payload, files, signer)
    requires SbomFiles(payload.sbom.components) == Some(payload.manifest.files)
    requires payload.sbom.bomFormat == CycloneDX && payload.sbom.dependencies != [] && forall c :: c in payload.sbom.components ==> c.bomRef != NoRef
    ensures ContentFault(l, ArchiveOf(l, files, signer, payload, zip), signer, payload.manifest, payload.sbom, SignatureOf(signer, payload)).None?
      <==> files.Keys !! l.Reserved()
  {
    hide ArchiveOf, EntriesOf, Read, ChecksumsHold;
    BuiltArchive(l, files, signer, payload, zip);
    BuiltChecksums(l, files, signer, payload, ArchiveOf(l, files, signer, payload, zip));
  }

  lemma StoredPlain(entries: map<string, Content>, names: seq<string>, zip: Zip)
    requires forall i :: 0 <= i < |names| ==> names[i] in entries
    ensures forall name :: name in NamesOf(Packed(entries, names, zip)) ==> NUL !in name
  {
  }

  lemma PackedReadsOne(entries: map<string, Content>, names: seq<string>, zip: Zip, name: string)
    requires (forall i :: 0 <= i < |names| ==> names[i] in entries) && name in names && NUL !in name
    requires DistinctNames(Packed(entries, names, zip))
    ensures Read(Packed(entries, names, zip), name) == Some(entries[name])
  {
    var archive := Packed(entries, names, zip);
    var i :| 0 <= i < |names| && names[i] == name;
    assert archive[i].name == name;
    ReadsEntry(archive, i);
  }

  // The manifest lists a path that is not in the archive.
  lemma MissingPathFails(l: Layout, archive: Archive, signer: Signer, manifest: Manifest, limits: ArchiveLimits, path: string)
    requires DistinctNames(archive) ==> Read(archive, l.manifest) == Some(ManifestJson(manifest))
    requires path in manifest.files && path !in NamesOf(archive)
    ensures ArchiveFault(l, archive, signer, limits).Some?
  {
    hide Read, LimitFault, ChecksumsHold, SbomFiles, NamesOf, DistinctNames;
    assert path in manifest.files.Keys + l.Reserved();
  }

  // A path that is cut short is missing from the archive.
  lemma CutNamesFail(l: Layout, files: map<string, Content>, signer: Signer, payload: SignedPayload, zip: Zip, limits: ArchiveLimits)
    requires l.Proper() && payload.manifest.files.Keys == files.Keys && !Plain(files)
    ensures ArchiveFault(l, ArchiveOf(l, files, signer, payload, zip), signer, limits).Some?
  {
    hide ArchiveFault, Read, EntriesOf, Packed, DistinctNames, NamesOf;
    var entries := EntriesOf(l, files, signer, payload);
    var names := SortedStrings(entries.Keys);
    EntriesAre(l, files, signer, payload);
    StoredPlain(entries, names, zip);
    assert l.manifest in l.Reserved() && l.manifest in names;
    if DistinctNames(Packed(entries, names, zip)) { PackedReadsOne(entries, names, zip, l.manifest); }
    var path :| path in files && NUL in path;
    assert path in files.Keys && path in payload.manifest.files;
    MissingPathFails(l, Packed(entries, names, zip), signer, payload.manifest, limits, path);
  }

  /** Verify accepts what build wrote exactly when no file takes a reserved name, no path holds a NUL and the archive is within limits. */
  lemma BuiltPackagesVerify(l: Layout, files: map<string, Content>, signer: Signer, name: string, version: string, dependencies: map<string, string>,
      zip: Zip, limits: ArchiveLimits)
    requires l.Proper() && Build(l, files, signer, name, version, dependencies, zip).Ok? && limits.maxTotalBytes > 0
    ensures var archive := Build(l, files, signer, name, version, dependencies, zip).value;
      ArchiveFault(l, archive, signer, limits).None? <==> files.Keys !! l.Reserved() && Plain(files) && WithinLimits(archive, limits)
  {
    hide ArchiveOf, ArchiveFault, WithinLimits, SbomOf;
    var payload := PayloadOf(files, name, version, dependencies);
    PayloadCovers(files, signer, name, version, dependencies);
    if Plain(files) {
      SbomListsFiles(payload.manifest, dependencies);
      SbomIsComplete(payload.manifest, dependencies);
      ArchiveVerifies(l, files, signer, payload, zip, limits);
    } else {
      CutNamesFail(l, files, signer, payload, zip, limits);
    }
  }

  /** In particular for the names the packages use. */
  lemma SignedPackagesVerify(files: map<string, Content>, signer: Signer, name: string, version: string, dependencies: map<string, string>,
      zip: Zip, limits: ArchiveLimits)
    requires Build(META_INF, files, signer, name, version, dependencies, zip).Ok? && limits.maxTotalBytes > 0
    ensures var archive := Build(META_INF, files, signer, name, version, dependencies, zip).value;
      ArchiveFault(META_INF, archive, signer, limits).None? <==>
        files.Keys !! META_INF.Reserved() && Plain(files) && WithinLimits(archive, limits)
  {
    hide Build, ArchiveFault, WithinLimits;
    MetaInfIsProper();
    BuiltPackagesVerify(META_INF, files, signer, name, version, dependencies, zip, limits);
  }

  lemma ArchiveVerifies(l: Layout, files: map<string, Content>, signer: Signer, payload: SignedPayload, zip: Zip, limits: ArchiveLimits)
    requires l.Proper() && Plain(files) && Covers(payload, files, signer) && limits.maxTotalBytes > 0
    requires SbomFiles(payload.sbom.components) == Some(payload.manifest.files)
    requires payload.sbom.bomFormat == CycloneDX && payload.sbom.dependencies != [] && forall c :: c in payload.sbom.components ==> c.bomRef != NoRef
    ensures ArchiveFault(l, ArchiveOf(l, files, signer, payload, zip), signer, limits).None?
      <==> files.Keys !! l.Reserved() && WithinLimits(ArchiveOf(l, files, signer, payload, zip), limits)
  {
    BuiltArchive(l, files, signer, payload, zip);
    BuiltDocuments(l, files, signer, payload, zip);
    BuiltContent(l, files, signer, payload, zip);
    LimitsAreTotals(ArchiveOf(l, files, signer, payload, zip), limits);
  }

  /** An accepted archive whose signature was issued for some build carries exactly that build's files. */
  lemma AcceptedIsBuilt(l: Layout, archive: Archive, signer: Signer, limits: ArchiveLimits,
      files: map<string, Content>, name: string, version: string, dependencies: map<string, string>)
    requires ArchiveFault(l, archive, signer, limits).None?
    requires Documents(l, archive).value.2.value == signer.Sign(PayloadOf(files, name, version, dependencies))
    ensures Documents(l, archive).value.0 == ManifestOf(files, name, version)
    ensures NamesOf(archive) == files.Keys + l.Reserved()
    ensures forall path :: path in files ==> Read(archive, path) == Some(files[path])
  {
    AcceptedIsSigned(l, archive, signer, limits, PayloadOf(files, name, version, dependencies));
    var manifest := ManifestOf(files, name, version);
    forall path | path in files ensures Read(archive, path) == Some(files[path]) {
      assert path in manifest.files && manifest.files[path] == Sha256(files[path]);
    }
    assert manifest.files.Keys == files.Keys;
  }

  lemma AcceptedIsSigned(l: Layout, archive: Archive, signer: Signer, limits: ArchiveLimits, payload: SignedPayload)
    requires ArchiveFault(l, archive, signer, limits).None?
    requires Documents(l, archive).value.2.value == signer.Sign(payload)
    ensures Documents(l, archive).value.0 == payload.manifest && Documents(l, archive).value.1 == payload.sbom
    ensures NamesOf(archive) == payload.manifest.files.Keys + l.Reserved() && ChecksumsHold(archive, payload.manifest.files)
  {
  }

  /** Two accepted archives with one signature hold the same files. */
  lemma OneSignatureOneContent(l: Layout, a: Archive, b: Archive, signer: Signer, limits: ArchiveLimits)
    requires ArchiveFault(l, a, signer, limits).None? && ArchiveFault(l, b, signer, limits).None?
    requires Documents(l, a).value.2.value == Documents(l, b).value.2.value
    ensures NamesOf(a) == NamesOf(b)
    ensures forall path :: path in Documents(l, a).value.0.files ==> Read(a, path) == Read(b, path)
  {
    hide LimitFault, SbomFiles, Read, DistinctNames;
    var files := Documents(l, a).value.0.files;
    forall path | path in files ensures Read(a, path) == Read(b, path) {
      assert Sha256(Read(a, path).value) == files[path] == Sha256(Read(b, path).value);
    }
  }
}
