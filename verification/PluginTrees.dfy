/** One plugin's tree, checked out and held as a copy: what the digest a bundle pins says of both. */
module PluginTrees {
  import opened Outcomes
  import opened Sorting
  import opened Texts
  import opened Toml
  import opened Bundles
  import opened BundleRules
  import Trees
  import opened TreeDigest
  import opened CheckoutFiles
  import Checkout

  // ------------------------------------------------------- checked out

  /** The files of the checkout at `root` that belong to the tree `manifest` declares. */
  ghost function CheckedOut(w: World, root: Trees.Node, manifest: string): map<string, string> {
    var part := DeclaredIn(w, manifest);
    CheckoutFiles.Belonging(root, ServiceIds(part), SortedTexts(part.fixtures))
  }

  ghost predicate CleanFor(w: World, root: Trees.Node, manifest: string) {
    var part := DeclaredIn(w, manifest);
    Clean(root, ServiceIds(part), SortedTexts(part.fixtures))
  }

  /** `of`: the digest of a checkout, for the services and fixtures its manifest declares. */
  method Of(w: World, root: Trees.Node, manifest: string) returns (r: Result<string, Refused>)
    requires Trees.Sound(root) && root.Dir?
    ensures r.Ok? <==> CleanFor(w, root, manifest)
    ensures r.Ok? ==> r.value == Digest(w.hash, manifest, CheckedOut(w, root, manifest))
  {
    var part := Declaring(w, manifest);
    r := Checkout.DigestOf(w.hash, root, manifest, ServiceIds(part), SortedTexts(part.fixtures));
  }

  /** A copy of a manifest and these other files. */
  function CopyOf(pin: Pin, manifest: string, files: map<string, string>): map<string, Copy> {
    map[pin.id := Copy(pin.id, Some(manifest), files, [])]
  }

  /** Whether everything the rules ask of a copy but its digest and its paths holds. */
  ghost predicate Fitting(w: World, pin: Pin, manifest: string, files: map<string, string>) {
    && ManifestSound(w, pin, manifest)
    && DeclaredIn(w, manifest).tables == {}
    && (forall one | one in DeclaredIn(w, manifest).services :: Light(files, one.id))
    && CasesApart(w, CopyOf(pin, manifest, files)[pin.id])
  }

  /** Pinned by the digest `of` a checkout, a copy of it keeps every rule about its paths and its
      digest: what is left to keep is the rest. */
  lemma CheckedOutIsSound(w: World, root: Trees.Node, pin: Pin, manifest: string)
    requires pin.tree == Some(Digest(w.hash, manifest, CheckedOut(w, root, manifest)))
    ensures var files := CheckedOut(w, root, manifest) - {MANIFEST};
            CopySound(w, pin, CopyOf(pin, manifest, files)) <==> Fitting(w, pin, manifest, files)
  {
    hide DeclaredIn, ManifestSound, Light, CasesApart, Digest, Holds, SortedTexts;
    var part := DeclaredIn(w, manifest);
    var all := CheckedOut(w, root, manifest);
    ManifestApart(w.hash, manifest, all);
    var fixtures := SortedTexts(part.fixtures);
    assert part.fixtures == set f | f in fixtures;
    assert forall p | p in all :: Holds(p, ServiceIds(part), part.fixtures);
  }

  /** A manifest held among the files counts for nothing: it is summed at its path in any case. */
  lemma ManifestApart(hash: Hash, manifest: string, files: map<string, string>)
    ensures Digest(hash, manifest, files) == Digest(hash, manifest, files - {MANIFEST})
  {
    DigestLists(hash, manifest, files);
    DigestLists(hash, manifest, files - {MANIFEST});
    hide Digest, Listing;
    assert Summed(hash, manifest, files) == Summed(hash, manifest, files - {MANIFEST});
  }

  // ------------------------------------------------------- one pin, one tree

  /** Two copies that are sound for one pin of a tree are one copy, where no path spells a line. */
  lemma OnePinOneTree(w: World, pin: Pin, one: map<string, Copy>, other: map<string, Copy>)
    requires Hexadecimal(w.hash)
    requires CopySound(w, pin, one) && CopySound(w, pin, other) && pin.tree.Some?
    requires forall p | p in one[pin.id].files.Keys + other[pin.id].files.Keys :: !SpellsALine(p)
    ensures var m, n := one[pin.id].manifest.value, other[pin.id].manifest.value;
            var f, g := one[pin.id].files, other[pin.id].files;
            Clashing(w.hash, m, f, n, g) || (m == n && f - {MANIFEST} == g - {MANIFEST})
  {
    hide Digest, SpellsALine, Hexadecimal, Clashing, DeclaredIn, ManifestSound, Light, CasesApart, Holds;
    DigestNamesOneTree(w.hash, one[pin.id].manifest.value, one[pin.id].files,
                       other[pin.id].manifest.value, other[pin.id].files);
  }

  /** A copy sound for a pin of the digest `of` a checkout holds just what is checked out there. */
  lemma HeldAsCheckedOut(w: World, root: Trees.Node, manifest: string, pin: Pin, copies: map<string, Copy>)
    requires Hexadecimal(w.hash)
    requires pin.tree == Some(Digest(w.hash, manifest, CheckedOut(w, root, manifest)))
    requires CopySound(w, pin, copies)
    requires forall p | p in copies[pin.id].files.Keys + CheckedOut(w, root, manifest).Keys :: !SpellsALine(p)
    ensures var held, files := copies[pin.id], CheckedOut(w, root, manifest);
            || Clashing(w.hash, held.manifest.value, held.files, manifest, files)
            || (held.manifest == Some(manifest) && held.files - {MANIFEST} == files - {MANIFEST})
  {
    hide Digest, SpellsALine, Hexadecimal, Clashing, DeclaredIn, ManifestSound, Light, CasesApart, Holds, CheckedOut;
    DigestNamesOneTree(w.hash, copies[pin.id].manifest.value, copies[pin.id].files,
                       manifest, CheckedOut(w, root, manifest));
  }

  // ------------------------------------------------------- one pin, two trees

  /** Where a path does spell one, a pin whose copy is sound is met by another copy as well, exactly
      where the two files belong to the tree and the copy keeps the rules of weight and of case. */
  lemma OnePinTwoTrees(w: World, pin: Pin, copies: map<string, Copy>, a: string, b: string, y: string)
    requires CopySound(w, pin, copies)
    requires Confusable(w.hash, copies[pin.id].files, a, b, y)
    ensures var copy := copies[pin.id];
            var files := Confused(w.hash, copy.files, a, b, y);
            var part := DeclaredIn(w, copy.manifest.value);
            var belong := Holds(a, ServiceIds(part), part.fixtures) && Holds(b, ServiceIds(part), part.fixtures);
            var light := forall one | one in part.services :: Light(files, one.id);
            var other := copy.(files := files);
            && other != copy
            && (CopySound(w, pin, copies[pin.id := other]) <==> belong && light && CasesApart(w, other))
  {
    hide Digest, DeclaredIn, ManifestSound, Light, CasesApart, Holds, Spelling, StandsAlike, Before;
    var copy := copies[pin.id];
    var files := Confused(w.hash, copy.files, a, b, y);
    LineFeedsConfuse(w.hash, copy.manifest.value, copy.files, a, b, y);
    assert a in files && b in files;
    assert forall p | p in files :: p in copy.files || p == a || p == b;
  }

  const RECORDED := CONFORMANCE + "/a"
  const RECORDED_NEXT := CONFORMANCE + "/b"

  /** And there they are: for every sound manifest, and whatever the hash is and the files hold, one
      pin that two copies with different files are both sound for, where lower-casing leaves their
      paths alone. */
  lemma TwoTreesHappen(w: World, pin: Pin, manifest: string, x: string, y: string)
    requires ManifestSound(w, pin, manifest) && DeclaredIn(w, manifest).tables == {}
    requires w.lower(MANIFEST) == MANIFEST && w.lower(RECORDED) == RECORDED && w.lower(RECORDED_NEXT) == RECORDED_NEXT
    requires var long := Spelling(RECORDED, w.hash(y), RECORDED_NEXT); w.lower(long) == long
    ensures var f := map[Spelling(RECORDED, w.hash(y), RECORDED_NEXT) := x];
            var g := map[RECORDED := x, RECORDED_NEXT := y];
            var pinned := pin.(tree := Some(Digest(w.hash, manifest, f)));
            && f != g
            && CopySound(w, pinned, CopyOf(pin, manifest, f))
            && CopySound(w, pinned, CopyOf(pin, manifest, g))
  {
    hide DeclaredIn, BundleRules.Named, Light, CasesApart, Digest, Holds, StandsAlike, Before, Spelling;
    var long := Spelling(RECORDED, w.hash(y), RECORDED_NEXT);
    var f, g := map[long := x], map[RECORDED := x, RECORDED_NEXT := y];
    var pinned := pin.(tree := Some(Digest(w.hash, manifest, f)));
    var part := DeclaredIn(w, manifest);
    RecordedApart(w.hash(y), part);
    assert long != MANIFEST && f.Keys == {long};
    assert f.Keys + {MANIFEST} - {long} == {MANIFEST};
    forall one | one in part.services
      ensures Light(f, one.id) && Light(g, one.id)
    {
      NothingStarts(f, one.id);
      NothingStarts(g, one.id);
    }
    var one, other := CopyOf(pin, manifest, f), CopyOf(pin, manifest, g);
    SamePathsApart(w, one[pin.id]);
    SamePathsApart(w, other[pin.id]);
    assert CopySound(w, pinned, one);
    assert Confusable(w.hash, f, RECORDED, RECORDED_NEXT, y);
    assert Confused(w.hash, f, RECORDED, RECORDED_NEXT, y) == g;
    OnePinTwoTrees(w, pinned, one, RECORDED, RECORDED_NEXT, y);
    assert one[pin.id := one[pin.id].(files := g)] == other;
  }

  ghost predicate Recording(path: string, part: Part) {
    Holds(path, ServiceIds(part), part.fixtures) && path != MANIFEST && !StartsWith(path, CONFIG + "/")
  }

  /** A recording belongs to every tree, is no starting file, and sorts before the manifest. */
  lemma Recorded(path: string, rest: string, part: Part)
    requires path == CONFORMANCE + "/" + rest
    ensures Recording(path, part) && Before(path, MANIFEST)
  {
    assert path[..|CONFORMANCE| + 1] == CONFORMANCE + "/";
    assert path[0] == 'c' && MANIFEST[0] == 'p';
    assert path[4] == 'o' && (CONFIG + "/")[4] == 'i';
  }

  /** The three paths, apart and in order. */
  lemma RecordedApart(sum: string, part: Part)
    ensures var long := Spelling(RECORDED, sum, RECORDED_NEXT);
            && Recording(long, part) && Recording(RECORDED, part) && Recording(RECORDED_NEXT, part)
            && long != RECORDED && long != RECORDED_NEXT
            && Before(RECORDED, RECORDED_NEXT)
            && StandsAlike({MANIFEST}, RECORDED, RECORDED_NEXT, long)
  {
    var long := Spelling(RECORDED, sum, RECORDED_NEXT);
    var more := "\n" + sum + "  " + RECORDED_NEXT;
    assert long == RECORDED + more == CONFORMANCE + "/" + ("a" + more);
    assert |long| > |RECORDED| && |RECORDED| == |RECORDED_NEXT|;
    hide Spelling, Holds, StartsWith;
    BeforeAfter(CONFORMANCE + "/", "a", "b");
    assert Before("a", "b");
    hide Before;
    Recorded(long, "a" + more, part);
    Recorded(RECORDED, "a", part);
    Recorded(RECORDED_NEXT, "b", part);
  }

  lemma {:induction false} BeforeAfter(start: string, a: string, b: string)
    ensures Before(start + a, start + b) <==> Before(a, b)
  {
    if start == "" {
      assert start + a == a && start + b == b;
    } else {
      var p, q := start + a, start + b;
      assert p[1..] == start[1..] + a && q[1..] == start[1..] + b && p[0] == q[0];
      BeforeAfter(start[1..], a, b);
      assert Before(p, q) <==> Before(p[1..], q[1..]);
    }
  }

  /** No starting file weighs nothing. */
  lemma NothingStarts(files: map<string, string>, service: string)
    requires forall p | p in files :: !StartsWith(p, CONFIG + "/")
    ensures Light(files, service)
  {
    NoneStart(files, service, SortedTexts(files.Keys));
  }

  lemma {:induction false} NoneStart(files: map<string, string>, service: string, paths: seq<string>)
    requires forall p | p in paths :: p in files && !StartsWith(p, CONFIG + "/")
    ensures Starting(files, service, paths) == (0, 0)
  {
    if paths != [] {
      var last := paths[|paths| - 1];
      NoneStart(files, service, paths[..|paths| - 1]);
      assert (CONFIG + "/" + service + "/")[..|CONFIG| + 1] == CONFIG + "/";
    }
  }

  lemma SamePathsApart(w: World, copy: Copy)
    requires copy.manifest.Some? && MANIFEST !in copy.files
    requires w.lower(MANIFEST) == MANIFEST && forall p | p in copy.files :: w.lower(p) == p
    ensures CasesApart(w, copy)
  {
    var paths := Paths(copy);
    var sorted := SortedTexts(copy.files.Keys);
    assert paths == [MANIFEST] + sorted;
    SortedApart(copy.files.Keys);
    assert forall p | p in sorted :: w.lower(p) == p && p != MANIFEST;
    hide SortedTexts, Paths;
  }

  lemma SortedApart(s: set<string>)
    ensures forall i, j | 0 <= i < j < |SortedTexts(s)| :: SortedTexts(s)[i] != SortedTexts(s)[j]
  {
    var sorted := SortedTexts(s);
    hide SortedTexts, Before;
    forall i, j | 0 <= i < j < |sorted|
      ensures sorted[i] != sorted[j]
    {
      BeforeStrict(sorted[i]);
    }
  }
}
