/** The rules about one pin, one copy and one part: a predicate for each, and a pass for each that
    adds no fault if and only if its predicate holds. */
module BundleRules {
  import opened Outcomes
  import opened Sorting
  import opened Texts
  import opened Toml
  import opened Recognisers
  import TreeDigest
  import opened Bundles

  const FENCE_IMAGE := "ghcr.io/lemonfiber/fence"
  const RECORDINGS := "recordings"
  const MOST_FILES := 64
  const MOST_BYTES := 1048576

  /** The rule broken, without the wording it is reported in. */
  datatype Rule =
    | UnknownSchema | OutOfOrder | NotPinned | FenceAtOne | FenceElsewhere | FenceTag | FenceDigest
    | NotAnId | NotSecure | NotARelease | NotACommit | NotADigest | FilledTwice
    | TableAtOne | FieldAtOne | ReleaseMissing
    | NoCopy | NoManifest | LinkHeld | CaseClash | NotPinnedManifest | NotItsManifest
    | DeclaresTable | NotOfTree | TooMuch | NotPinnedTree
    | FieldMissing | NotADay | NotOneService | NotItsService | FixtureElsewhere | NotReplacing
    | SaysNothing | UnknownProfile | FormsDiffer
    | ProfileTwice | FormTwice | FormProfile | RemovedPinned | RemovedBy
    | WiredFrom | NoWhy | Each | NotAskedOnce | NotFilled | NotNamed | NeitherKind | Unfenced

  datatype Fault = Fault(rule: Rule, at: string)

  predicate Blank(w: World, text: string) {
    forall c | c in text :: w.blank(c)
  }

  // ------------------------------------------------------- a pin's own fields

  ghost predicate PinSound(w: World, pin: Pin) {
    && IsId(pin.id)
    && StartsWith(pin.origin, SECURE) && (forall c | c in pin.origin :: !w.blank(c))
    && (pin.release.Some? ==> IsRelease(pin.release.value))
    && IsHex(pin.revision, REVISION_DIGITS)
    && IsDigest(pin.manifest)
    && (pin.tree.Some? ==> IsDigest(pin.tree.value))
    && FillsSound(w, pin.fills)
  }

  method Pinned(w: World, pin: Pin, given: seq<Fault>) returns (broken: seq<Fault>)
    ensures |given| <= |broken|
    ensures |broken| == |given| <==> PinSound(w, pin)
  {
    broken := given;
    if !IsId(pin.id) {
      broken := broken + [Fault(NotAnId, pin.id)];
    }
    if !StartsWith(pin.origin, SECURE) || exists c | c in pin.origin :: w.blank(c) {
      broken := broken + [Fault(NotSecure, pin.id)];
    }
    if pin.release.Some? && !IsRelease(pin.release.value) {
      broken := broken + [Fault(NotARelease, pin.id)];
    }
    if !IsHex(pin.revision, REVISION_DIGITS) {
      broken := broken + [Fault(NotACommit, pin.id)];
    }
    if !IsDigest(pin.manifest) {
      broken := broken + [Fault(NotADigest, "manifest")];
    }
    if pin.tree.Some? && !IsDigest(pin.tree.value) {
      broken := broken + [Fault(NotADigest, "tree")];
    }
    broken := Filled(w, pin, broken);
  }

  /** Whether every capability filled is named, once. */
  ghost predicate FillsSound(w: World, fills: seq<string>) {
    && (forall i | 0 <= i < |fills| :: !Blank(w, fills[i]))
    && (forall i, j | 0 <= i < j < |fills| :: fills[i] != fills[j])
  }

  method Filled(w: World, pin: Pin, given: seq<Fault>) returns (broken: seq<Fault>)
    ensures |given| <= |broken|
    ensures |broken| == |given| <==> FillsSound(w, pin.fills)
  {
    broken := given;
    var fills := pin.fills;
    var seen := {};
    for i := 0 to |fills|
      invariant forall c :: c in seen <==> exists j :: 0 <= j < i && fills[j] == c && !Blank(w, c)
      invariant |given| <= |broken|
      invariant |broken| == |given| <==>
                  && (forall j | 0 <= j < i :: !Blank(w, fills[j]))
                  && (forall j, k | 0 <= j < k < i :: fills[j] != fills[k])
    {
      var capability := fills[i];
      if Blank(w, capability) || capability in seen {
        broken := broken + [Fault(FilledTwice, capability)];
      }
      if !Blank(w, capability) {
        seen := seen + {capability};
      }
    }
  }

  // ------------------------------------------------------- the fence

  predicate FenceSound(fence: Image, schema: nat) {
    && schema != 1
    && fence.image == FENCE_IMAGE
    && (IsRelease(fence.tag) || IsCommitImage(fence.tag))
    && IsDigest(fence.digest)
  }

  method Fenced(fence: Image, schema: nat, given: seq<Fault>) returns (broken: seq<Fault>)
    ensures |given| <= |broken|
    ensures |broken| == |given| <==> FenceSound(fence, schema)
  {
    broken := given;
    if schema == 1 {
      broken := broken + [Fault(FenceAtOne, "")];
    }
    if fence.image != FENCE_IMAGE {
      broken := broken + [Fault(FenceElsewhere, fence.image)];
    }
    if !IsRelease(fence.tag) && !IsCommitImage(fence.tag) {
      broken := broken + [Fault(FenceTag, fence.tag)];
    }
    if !IsDigest(fence.digest) {
      broken := broken + [Fault(FenceDigest, fence.digest)];
    }
  }

  // ------------------------------------------------------- a manifest against its pin

  ghost predicate ManifestSound(w: World, pin: Pin, manifest: string) {
    && pin.manifest == DIGEST_PREFIX + w.hash(manifest)
    && Named(w, manifest) == Some(pin.id)
  }

  /** The plugin a manifest's text names. */
  function Named(w: World, manifest: string): Option<string> {
    match w.parse(manifest)
    case None => None
    case Some(table) =>
      match Field(table, "plugin")
      case None => None
      case Some(plugin) => TextAt(plugin, "id")
  }

  method Manifested(w: World, pin: Pin, manifest: string, given: seq<Fault>) returns (broken: seq<Fault>)
    ensures |given| <= |broken|
    ensures |broken| == |given| <==> ManifestSound(w, pin, manifest)
  {
    broken := given;
    if StripPrefix(pin.manifest, DIGEST_PREFIX) != Some(w.hash(manifest)) {
      broken := broken + [Fault(NotPinnedManifest, pin.id)];
    }
    if Named(w, manifest) != Some(pin.id) {
      broken := broken + [Fault(NotItsManifest, pin.id)];
    }
  }

  // ------------------------------------------------------- schema 1

  ghost predicate FirstSound(w: World, bundle: Bundle, copies: map<string, Copy>) {
    && bundle.profile == [] && bundle.form == [] && bundle.wiring == [] && bundle.removed == []
    && forall pin | pin in bundle.plugin :: FirstPinSound(w, pin, copies)
  }

  ghost predicate FirstPinSound(w: World, pin: Pin, copies: map<string, Copy>) {
    && pin.release.Some?
    && pin.tree.None? && pin.stage.None? && pin.profile.None? && pin.lastRelease.None?
    && pin.id in copies && copies[pin.id].manifest.Some?
    && ManifestSound(w, pin, copies[pin.id].manifest.value)
  }

  method First(w: World, bundle: Bundle, copies: map<string, Copy>, given: seq<Fault>)
    returns (broken: seq<Fault>)
    ensures |given| <= |broken|
    ensures |broken| == |given| <==> FirstSound(w, bundle, copies)
  {
    broken := given;
    if |bundle.profile| > 0 {
      broken := broken + [Fault(TableAtOne, "profile")];
    }
    if |bundle.form| > 0 {
      broken := broken + [Fault(TableAtOne, "form")];
    }
    if |bundle.wiring| > 0 {
      broken := broken + [Fault(TableAtOne, "wiring")];
    }
    if |bundle.removed| > 0 {
      broken := broken + [Fault(TableAtOne, "removed")];
    }
    ghost var before := |broken|;
    for i := 0 to |bundle.plugin|
      invariant before <= |broken|
      invariant |broken| == before <==> forall j | 0 <= j < i :: FirstPinSound(w, bundle.plugin[j], copies)
    {
      broken := FirstPin(w, bundle.plugin[i], copies, broken);
    }
  }

  method FirstPin(w: World, pin: Pin, copies: map<string, Copy>, given: seq<Fault>)
    returns (broken: seq<Fault>)
    ensures |given| <= |broken|
    ensures |broken| == |given| <==> FirstPinSound(w, pin, copies)
  {
    broken := given;
    if pin.release.None? {
      broken := broken + [Fault(ReleaseMissing, pin.id)];
    }
    if pin.tree.Some? || pin.stage.Some? || pin.profile.Some? || pin.lastRelease.Some? {
      broken := broken + [Fault(FieldAtOne, pin.id)];
    }
    if pin.id !in copies || copies[pin.id].manifest.None? {
      broken := broken + [Fault(NoCopy, pin.id)];
    } else {
      broken := Manifested(w, pin, copies[pin.id].manifest.value, broken);
    }
  }

  // ------------------------------------------------------- a schema 2 copy

  /** Whether lower-casing keeps all paths of the copy distinct, its manifest's path counted in. */
  ghost predicate CasesApart(w: World, copy: Copy) {
    var paths := Paths(copy);
    forall i, j | 0 <= i < j < |paths| :: w.lower(paths[i]) != w.lower(paths[j])
  }

  /** The copy's manifest, where it has one, then every other file in order. */
  function Paths(copy: Copy): seq<string> {
    (if copy.manifest.Some? then [TreeDigest.MANIFEST] else []) + SortedTexts(copy.files.Keys)
  }

  /** How many starting files `service` ships and what they weigh, counting the paths in order. */
  function Starting(files: map<string, string>, service: string, paths: seq<string>): (nat, nat)
    requires forall p | p in paths :: p in files
  {
    if paths == [] then (0, 0)
    else
      var last := paths[|paths| - 1];
      var (count, weight) := Starting(files, service, paths[..|paths| - 1]);
      if StartsWith(last, TreeDigest.CONFIG + "/" + service + "/") then (count + 1, weight + |files[last]|)
      else (count, weight)
  }

  ghost predicate Light(files: map<string, string>, service: string) {
    var (count, weight) := Starting(files, service, SortedTexts(files.Keys));
    count <= MOST_FILES && weight <= MOST_BYTES
  }

  function ServiceIds(part: Part): seq<string> {
    seq(|part.services|, i requires 0 <= i < |part.services| => part.services[i].id)
  }

  ghost predicate CopySound(w: World, pin: Pin, copies: map<string, Copy>) {
    && pin.id in copies
    && copies[pin.id].manifest.Some?
    && var copy := copies[pin.id];
       && copy.links == []
       && CasesApart(w, copy)
       && CarriedSound(w, pin, copy.manifest.value, DeclaredIn(w, copy.manifest.value), copy.files)
  }

  ghost predicate CarriedSound(w: World, pin: Pin, manifest: string, part: Part, files: map<string, string>) {
    && ManifestSound(w, pin, manifest)
    && part.tables == {}
    && (forall p | p in files :: TreeDigest.Holds(p, ServiceIds(part), part.fixtures))
    && (forall one | one in part.services :: Light(files, one.id))
    && (pin.tree.Some? ==> pin.tree.value == TreeDigest.Digest(w.hash, manifest, files))
  }

  method Folded(w: World, paths: seq<string>, given: seq<Fault>) returns (broken: seq<Fault>)
    ensures |given| <= |broken|
    ensures |broken| == |given| <==>
              forall i, j | 0 <= i < j < |paths| :: w.lower(paths[i]) != w.lower(paths[j])
  {
    broken := given;
    var folded := {};
    for i := 0 to |paths|
      invariant |given| <= |broken|
      invariant forall c :: c in folded <==> exists j :: 0 <= j < i && w.lower(paths[j]) == c
      invariant |broken| == |given| <==>
                  forall j, k | 0 <= j < k < i :: w.lower(paths[j]) != w.lower(paths[k])
    {
      var path := paths[i];
      if w.lower(path) in folded {
        broken := broken + [Fault(CaseClash, path)];
      }
      folded := folded + {w.lower(path)};
    }
  }

  method Weigh(files: map<string, string>, service: string, paths: seq<string>)
    returns (count: nat, weight: nat)
    requires forall p | p in paths :: p in files
    ensures (count, weight) == Starting(files, service, paths)
  {
    count, weight := 0, 0;
    for i := 0 to |paths|
      invariant (count, weight) == Starting(files, service, paths[..i])
    {
      assert paths[..i + 1][..i] == paths[..i];
      if StartsWith(paths[i], TreeDigest.CONFIG + "/" + service + "/") {
        count, weight := count + 1, weight + |files[paths[i]]|;
      }
    }
    assert paths[..|paths|] == paths;
  }

  method IsLight(files: map<string, string>, service: string) returns (light: bool)
    ensures light == Light(files, service)
  {
    var count, weight := Weigh(files, service, SortedTexts(files.Keys));
    light := count <= MOST_FILES && weight <= MOST_BYTES;
  }

  method Weighed(files: map<string, string>, services: seq<Declared>, given: seq<Fault>)
    returns (broken: seq<Fault>)
    ensures |given| <= |broken|
    ensures |broken| == |given| <==> forall one | one in services :: Light(files, one.id)
  {
    hide Light;
    broken := given;
    for i := 0 to |services|
      invariant |given| <= |broken|
      invariant |broken| == |given| <==> forall j | 0 <= j < i :: Light(files, services[j].id)
    {
      var light := IsLight(files, services[i].id);
      if !light {
        broken := broken + [Fault(TooMuch, services[i].id)];
      }
    }
  }

  method Belonging(files: map<string, string>, part: Part, given: seq<Fault>) returns (broken: seq<Fault>)
    ensures |given| <= |broken|
    ensures |broken| == |given| <==>
              forall p | p in files :: TreeDigest.Holds(p, ServiceIds(part), part.fixtures)
  {
    broken := given;
    var paths := files.Keys;
    while paths != {}
      invariant paths <= files.Keys
      invariant |given| <= |broken|
      invariant |broken| == |given| <==>
                  forall p | p in files.Keys - paths :: TreeDigest.Holds(p, ServiceIds(part), part.fixtures)
      decreases |paths|
    {
      var path :| path in paths;
      if !TreeDigest.Holds(path, ServiceIds(part), part.fixtures) {
        broken := broken + [Fault(NotOfTree, path)];
      }
      paths := paths - {path};
    }
  }

  method Carried(w: World, pin: Pin, manifest: string, part: Part, files: map<string, string>,
                 given: seq<Fault>)
    returns (broken: seq<Fault>)
    ensures |given| <= |broken|
    ensures |broken| == |given| <==> CarriedSound(w, pin, manifest, part, files)
  {
    hide TreeDigest.Digest, TreeDigest.Holds, Light;
    broken := Manifested(w, pin, manifest, given);
    if part.tables != {} {
      broken := broken + [Fault(DeclaresTable, pin.id)];
    }
    broken := Belonging(files, part, broken);
    broken := Weighed(files, part.services, broken);
    var digest := TreeDigest.DigestFiles(w.hash, manifest, files);
    if pin.tree.Some? && pin.tree.value != digest {
      broken := broken + [Fault(NotPinnedTree, pin.id)];
    }
  }

  /** Checks the copy of one pin: `part` is what its manifest declares, if it has one, and no fault is
      added if and only if the copy is there and sound. */
  method Copied(w: World, pin: Pin, copies: map<string, Copy>, given: seq<Fault>)
    returns (part: Option<Part>, broken: seq<Fault>)
    ensures |given| <= |broken|
    ensures |broken| == |given| <==> CopySound(w, pin, copies)
    ensures part.Some? <==> pin.id in copies && copies[pin.id].manifest.Some?
    ensures part.Some? ==> part.value == DeclaredIn(w, copies[pin.id].manifest.value)
  {
    broken := given;
    if pin.id !in copies {
      return None, broken + [Fault(NoCopy, pin.id)];
    }
    var copy := copies[pin.id];
    for i := 0 to |copy.links|
      invariant |broken| == |given| + i
    {
      broken := broken + [Fault(LinkHeld, copy.links[i])];
    }
    broken := Folded(w, Paths(copy), broken);
    if copy.manifest.None? {
      return None, broken + [Fault(NoManifest, pin.id)];
    }
    var declared := Declaring(w, copy.manifest.value);
    broken := Carried(w, pin, copy.manifest.value, declared, copy.files, broken);
    return Some(declared), broken;
  }

  // ------------------------------------------------------- a part against its stage

  ghost predicate StageSound(pin: Pin, part: Part) {
    match pin.stage
    case Some(Assembled) =>
      && |part.services| == 1
      && part.services[0].speaks == []
      && part.services[0].id == pin.id
      && forall f | f in part.fixtures :: StartsWith(f, RECORDINGS + "/" + pin.id + "/")
    case Some(Installed) =>
      exists one :: one in part.services && one.id == pin.id && one.replacing == Some(pin.id)
    case None => true
  }

  /** Whether neither answer a service owes, its reach and its asks, is missing or blank. */
  predicate Says(w: World, one: Declared) {
    one.reaches.Some? && one.asksFor.Some? && !Blank(w, one.asksFor.value)
  }

  ghost function Holding(bundle: Bundle, profile: string): set<string> {
    set form | form in bundle.form && profile in form.profiles :: form.id
  }

  ghost predicate PartSound(w: World, pin: Pin, part: Part, bundle: Bundle) {
    && pin.tree.Some? && pin.stage.Some? && pin.profile.Some? && pin.lastRelease.Some?
    && IsDay(pin.lastRelease.value)
    && StageSound(pin, part)
    && (forall one | one in part.services :: Says(w, one))
    && pin.profile.value in bundle.profile
    && Holding(bundle, pin.profile.value) == set form | form in part.forms
  }

  method StageChecked(pin: Pin, part: Part, given: seq<Fault>) returns (broken: seq<Fault>)
    ensures |given| <= |broken|
    ensures |broken| == |given| <==> StageSound(pin, part)
  {
    broken := given;
    match pin.stage {
      case Some(Assembled) =>
        if |part.services| != 1 || exists one | one in part.services :: one.speaks != [] {
          broken := broken + [Fault(NotOneService, pin.id)];
        }
        if exists one | one in part.services :: one.id != pin.id {
          broken := broken + [Fault(NotItsService, pin.id)];
        }
        if exists f | f in part.fixtures :: !StartsWith(f, RECORDINGS + "/" + pin.id + "/") {
          broken := broken + [Fault(FixtureElsewhere, pin.id)];
        }
        if |part.services| == 1 {
          assert part.services[0] in part.services;
        }
      case Some(Installed) =>
        if !exists one | one in part.services :: one.id == pin.id && one.replacing == Some(pin.id) {
          broken := broken + [Fault(NotReplacing, pin.id)];
        }
      case None =>
    }
  }

  method Staged(w: World, pin: Pin, part: Part, bundle: Bundle, given: seq<Fault>) returns (broken: seq<Fault>)
    ensures |given| <= |broken|
    ensures |broken| == |given| <==> PartSound(w, pin, part, bundle)
  {
    broken := given;
    if pin.tree.None? {
      broken := broken + [Fault(FieldMissing, "tree")];
    }
    if pin.stage.None? {
      broken := broken + [Fault(FieldMissing, "stage")];
    }
    if pin.profile.None? {
      broken := broken + [Fault(FieldMissing, "profile")];
    }
    if pin.lastRelease.None? {
      broken := broken + [Fault(FieldMissing, "last_release")];
    }
    if pin.lastRelease.Some? && !IsDay(pin.lastRelease.value) {
      broken := broken + [Fault(NotADay, pin.id)];
    }
    broken := StageChecked(pin, part, broken);
    ghost var before := |broken|;
    for i := 0 to |part.services|
      invariant before <= |broken|
      invariant |broken| == before <==> forall j | 0 <= j < i :: Says(w, part.services[j])
    {
      if !Says(w, part.services[i]) {
        broken := broken + [Fault(SaysNothing, part.services[i].id)];
      }
    }
    if pin.profile.None? {
      return;
    }
    if pin.profile.value !in bundle.profile {
      broken := broken + [Fault(UnknownProfile, pin.id)];
    }
    var holding := {};
    for i := 0 to |bundle.form|
      invariant holding == set form | form in bundle.form[..i] && pin.profile.value in form.profiles :: form.id
    {
      assert bundle.form[..i + 1] == bundle.form[..i] + [bundle.form[i]];
      if pin.profile.value in bundle.form[i].profiles {
        holding := holding + {bundle.form[i].id};
      }
    }
    assert bundle.form[..|bundle.form|] == bundle.form;
    if holding != set form | form in part.forms {
      broken := broken + [Fault(FormsDiffer, pin.id)];
    }
  }
}
