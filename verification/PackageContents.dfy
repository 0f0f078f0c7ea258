/** What build refuses and what its SBOM says, what verify accepts of any archive, in terms of paths, sizes and documents. */
module PackageContents {
  import opened Wrappers
  import opened Ordering
  import opened Packaging

  // --- Paths ---

  // The path has a segment "..": between slashes, or at an end.
  ghost predicate HasDotDot(path: string) {
    exists i :: DotDotAt(path, i)
  }

  predicate DotDotAt(path: string, i: int) {
    && 0 <= i && i + 2 <= |path| && path[i] == '.' && path[i + 1] == '.'
    && (i == 0 || path[i - 1] == '/') && (i + 2 == |path| || path[i + 2] == '/')
  }

  // The segment read so far is not closed yet.
  lemma {:induction false} ClimbingExactly(path: string, segment: string)
    requires '/' !in segment
    ensures Climbing(path, segment) <==> HasDotDot(segment + path)
    decreases |path|
  {
    var whole := segment + path;
    if path == [] {
      assert whole == segment;
      PlainSegment(segment);
    } else if path[0] == '/' {
      ClimbingExactly(path[1..], "");
      assert "" + path[1..] == path[1..];
      SegmentThenRest(segment, path[1..]);
      assert whole == segment + "/" + path[1..];
    } else {
      assert whole == (segment + [path[0]]) + path[1..];
      ClimbingExactly(path[1..], segment + [path[0]]);
    }
  }

  lemma PlainSegment(segment: string)
    requires '/' !in segment
    ensures HasDotDot(segment) <==> segment == ".."
  {
    if segment == ".." { assert DotDotAt(segment, 0); }
    if i :| DotDotAt(segment, i) {
      assert segment == [segment[0], segment[1]];
    }
  }

  lemma SegmentThenRest(segment: string, rest: string)
    requires '/' !in segment
    ensures HasDotDot(segment + "/" + rest) <==> segment == ".." || HasDotDot(rest)
  {
    var whole, n := segment + "/" + rest, |segment| + 1;
    assert forall k :: 0 <= k < |rest| ==> whole[n + k] == rest[k];
    assert forall k :: 0 <= k < |segment| ==> whole[k] == segment[k];
    assert whole[n - 1] == '/';
    if segment == ".." { assert DotDotAt(whole, 0); }
    if i :| DotDotAt(rest, i) { assert DotDotAt(whole, n + i); }
    if i :| DotDotAt(whole, i) {
      if i < n {
        assert i == 0 && segment == [segment[0], segment[1]];
      } else {
        assert DotDotAt(rest, i - n);
      }
    }
  }

  /** build() refuses exactly no files at all, a path from the root, and a path with a segment "..". */
  lemma BuildRefusesExactly(l: Layout, files: map<string, Content>, signer: Signer, name: string, version: string, dependencies: map<string, string>, zip: Zip)
    ensures Build(l, files, signer, name, version, dependencies, zip).Err? <==>
      files == map[] || exists path :: path in files && ("/" <= path || HasDotDot(path))
  {
    forall path ensures BadName(path) <==> "/" <= path || HasDotDot(path) {
      ClimbingExactly(path, "");
      assert "" + path == path;
    }
  }

  // --- Limits ---

  /** An archive is within limits if it has no more entries, no larger entry, no worse compression and no more bytes than they say. */
  lemma WithinLimitsExactly(archive: Archive, limits: ArchiveLimits)
    requires limits.maxTotalBytes > 0
    ensures WithinLimits(archive, limits) <==>
      && |archive| <= limits.maxEntries && TotalSize(archive) <= limits.maxTotalBytes
      && forall i :: 0 <= i < |archive| ==>
           && archive[i].fileSize <= limits.maxEntryBytes
           && (archive[i].fileSize > 0 ==> archive[i].compressSize > 0)
           && (archive[i].compressSize > 0 ==> archive[i].fileSize as real / archive[i].compressSize as real <= limits.maxRatio)
  {
  }

  // --- Any archive ---

  // Each file the manifest lists is there with the content it was listed for.
  ghost predicate HoldsItsFiles(archive: Archive, manifest: Manifest) {
    forall path :: path in manifest.files ==> exists c :: Read(archive, path) == Some(c) && Sha256(c) == manifest.files[path]
  }

  // The SBOM is a CycloneDX graph in which every component can be referred to.
  predicate IsGraph(sbom: Sbom) {
    sbom.bomFormat == CycloneDX && sbom.dependencies != [] && forall c :: c in sbom.components ==> c.bomRef != NoRef
  }

  /**
   verify() accepts an archive exactly if its paths are distinct and those of its manifest with the three documents, it is
   within limits, its files and its SBOM are those of the manifest, and the signature over both is the signer's.
   */
  lemma AcceptedExactly(l: Layout, archive: Archive, signer: Signer, limits: ArchiveLimits)
    requires limits.maxTotalBytes > 0
    ensures ArchiveFault(l, archive, signer, limits).None? <==>
      && (forall i, j :: 0 <= i < j < |archive| ==> archive[i].name != archive[j].name)
      && WithinLimits(archive, limits)
      && Documents(l, archive).Some?
      && var (manifest, sbom, signature) := Documents(l, archive).value;
      && (set e | e in archive :: e.name) == manifest.files.Keys + {l.manifest, l.sbom, l.signature}
      && HoldsItsFiles(archive, manifest) && SbomFiles(sbom.components) == Some(manifest.files) && IsGraph(sbom)
      && signature == Signature(signer.algorithm, signer.keyId, Hmac(signer.secret, SignedPayload(manifest, sbom)))
  {
    hide LimitFault, EntryFault, Read, SbomFiles, TotalSize;
    LimitsAreTotals(archive, limits);
    TotalsWithin(archive, limits);
    if Documents(l, archive).Some? {
      var (manifest, sbom, signature) := Documents(l, archive).value;
      assert ChecksumsHold(archive, manifest.files) <==> HoldsItsFiles(archive, manifest);
    }
  }

  lemma TotalsWithin(archive: Archive, limits: ArchiveLimits)
    requires limits.maxTotalBytes > 0
    ensures WithinLimits(archive, limits) <==>
      |archive| <= limits.maxEntries && (forall i :: 0 <= i < |archive| ==> EntryFault(archive[i], 0, limits).None?)
      && TotalSize(archive) <= limits.maxTotalBytes
  {
  }

  // --- The SBOM of a build ---

  lemma FileIsListed(manifest: Manifest, path: string)
    requires path in manifest.files
    ensures Component(FileComponent, path, "", FileRef(path), Some(manifest.files[path]))
         in FileComponents(SortedStrings(manifest.files.Keys), manifest.files)
  {
    var paths := SortedStrings(manifest.files.Keys);
    var i :| 0 <= i < |paths| && paths[i] == path;
    assert FileComponents(paths, manifest.files)[i].name == path;
  }

  lemma LibraryIsListed(dependencies: map<string, string>, name: string)
    requires name in dependencies
    ensures Component(LibraryComponent, name, dependencies[name], LibraryRef(name, dependencies[name]), None)
         in LibraryComponents(SortedStrings(dependencies.Keys), dependencies)
  {
    var names := SortedStrings(dependencies.Keys);
    var i :| 0 <= i < |names| && names[i] == name;
    assert LibraryComponents(names, dependencies)[i].name == name;
  }

  // The two lists, and nothing else.
  lemma ComponentsAre(manifest: Manifest, dependencies: map<string, string>)
    ensures var sbom := SbomOf(manifest, dependencies);
      && sbom.components == FileComponents(SortedStrings(manifest.files.Keys), manifest.files)
                            + LibraryComponents(SortedStrings(dependencies.Keys), dependencies)
      && |sbom.components| == |manifest.files| + |dependencies|
  {
    hide SortedStrings;
    assert |manifest.files.Keys| == |manifest.files| && |dependencies.Keys| == |dependencies|;
  }

  /** The SBOM names every file with its digest and every dependency with its version, and nothing else. */
  lemma SbomIsFull(manifest: Manifest, dependencies: map<string, string>)
    ensures var components := SbomOf(manifest, dependencies).components;
      && (forall path :: path in manifest.files ==>
            Component(FileComponent, path, "", FileRef(path), Some(manifest.files[path])) in components)
      && (forall name :: name in dependencies ==>
            Component(LibraryComponent, name, dependencies[name], LibraryRef(name, dependencies[name]), None) in components)
      && |components| == |manifest.files| + |dependencies|
  {
    hide SbomOf, FileComponents, LibraryComponents, SortedStrings;
    ComponentsAre(manifest, dependencies);
    forall path | path in manifest.files
      ensures Component(FileComponent, path, "", FileRef(path), Some(manifest.files[path])) in SbomOf(manifest, dependencies).components
    {
      FileIsListed(manifest, path);
    }
    forall name | name in dependencies
      ensures Component(LibraryComponent, name, dependencies[name], LibraryRef(name, dependencies[name]), None)
           in SbomOf(manifest, dependencies).components
    {
      LibraryIsListed(dependencies, name);
    }
  }

  /** In its graph the application depends on every component, in order, and the components on nothing. */
  lemma SbomGraphIsFull(manifest: Manifest, dependencies: map<string, string>)
    ensures var sbom := SbomOf(manifest, dependencies);
      && sbom.application == ApplicationRef(manifest.componentName, manifest.componentVersion)
      && |sbom.dependencies| == |sbom.components| + 1 && sbom.dependencies[0].ref == sbom.application
      && |sbom.dependencies[0].dependsOn| == |sbom.components|
      && forall i :: 0 <= i < |sbom.components| ==>
           sbom.dependencies[0].dependsOn[i] == sbom.components[i].bomRef && sbom.dependencies[i + 1] == Dependency(sbom.components[i].bomRef, [])
  {
    hide FileComponents, LibraryComponents, SortedStrings;
  }
}
