/** A bundle the rules pass whose filler names nothing: a filler chosen by the empty id, which the
    rules read off a service that gives none. */
module EmptyFiller {
  import opened Outcomes
  import opened Sorting
  import opened Texts
  import opened Digits
  import opened Recognisers
  import TreeDigest
  import opened Toml
  import opened Bundles
  import opened BundleRules
  import opened BundleChecker
  import opened KeptParts
  import opened BundleSoundness
  import opened BundleFillers

  /** What a plugin's manifest reads as: the service it replaces, which asks for a capability, and a
      service that gives no id and provides it. */
  function PartOf(id: string, capability: string, why: string): Part {
    Part([Declared(id, false, false, [], [], Some(id), Some(why), Some(why)),
          Declared("", false, false, [capability], [], None, Some(why), Some(why))],
         [Asked(capability, Some(id), false)], [], {}, {})
  }

  /** A bundle of that one plugin, choosing the filler with the empty id. */
  function BundleOf(pin: Pin, profile: string, capability: string, why: string): Bundle {
    Bundle(2, [profile], [], [Wiring(pin.id, Some(capability), false, Some(""), None, Some(why))], [], [pin], None)
  }

  function CopiesOf(pin: Pin, manifest: string): map<string, Copy> {
    map[pin.id := Copy(pin.id, Some(manifest), map[], [])]
  }

  /** The plugin's manifest reads so, no service of it spelling an empty id, and its pin is sound. */
  ghost predicate Given(w: World, pin: Pin, profile: string, manifest: string, capability: string, why: string) {
    && DeclaredIn(w, manifest) == PartOf(pin.id, capability, why)
    && "" !in Serviced(w, manifest)
    && ManifestSound(w, pin, manifest)
    && PinSound(w, pin) && pin.id != ""
    && pin.tree == Some(TreeDigest.Digest(w.hash, manifest, map[]))
    && pin.stage == Some(Stage.Installed)
    && pin.profile == Some(profile) && IsId(profile)
    && pin.lastRelease.Some? && IsDay(pin.lastRelease.value)
    && !Blank(w, why)
  }

  lemma GivenCopySound(w: World, pin: Pin, profile: string, manifest: string, capability: string, why: string)
    requires Given(w, pin, profile, manifest, capability, why)
    ensures CopySound(w, pin, CopiesOf(pin, manifest))
  {
    hide DeclaredIn, Serviced, ManifestSound, PinSound, IsId, IsDay, Blank, TreeDigest.Digest, Light, CasesApart;
    var part := DeclaredIn(w, manifest);
    forall id
      ensures Light(map[], id)
    {
      NothingWeighs(id);
    }
    OnePath(w, CopiesOf(pin, manifest)[pin.id]);
  }

  lemma NothingWeighs(id: string)
    ensures Light(map[], id)
  {
    var files: map<string, string> := map[];
    assert |files.Keys| == 0;
    assert SortedTexts(files.Keys) == [];
  }

  lemma OnePath(w: World, copy: Copy)
    requires copy.files == map[]
    ensures CasesApart(w, copy)
  {
    assert |copy.files.Keys| == 0;
    assert SortedTexts(copy.files.Keys) == [];
  }

  lemma GivenPartSound(w: World, pin: Pin, profile: string, manifest: string, capability: string, why: string)
    requires Given(w, pin, profile, manifest, capability, why)
    ensures PartSound(w, pin, DeclaredIn(w, manifest), BundleOf(pin, profile, capability, why))
  {
    hide DeclaredIn, Serviced, ManifestSound, PinSound, IsId, IsDay, Blank, TreeDigest.Digest;
    var part := DeclaredIn(w, manifest);
    assert part.services[0] in part.services;
    assert forall one | one in part.services :: one == part.services[0] || one == part.services[1];
  }

  lemma GivenTablesSound(w: World, pin: Pin, profile: string, manifest: string, capability: string, why: string,
                         parts: map<string, Part>)
    requires Given(w, pin, profile, manifest, capability, why)
    requires parts == map[pin.id := PartOf(pin.id, capability, why)]
    ensures TablesSound(w, BundleOf(pin, profile, capability, why), parts)
    ensures Unfencing(parts)
  {
    hide DeclaredIn, Serviced, ManifestSound, PinSound, IsId, IsDay, Blank, TreeDigest.Digest, Catalogue;
    var part := parts[pin.id];
    var services := Catalogue(parts);
    assert part.services[0] in part.services && part.services[1] in part.services;
    assert Declares(part, part.services[0]) && Declares(part, part.services[1]);
    CatalogueHolds(parts, pin.id);
    CatalogueHolds(parts, "");
    assert services[""] == part.services[1];
    assert part.asks[0] in part.asks;
    assert AsksOnce(part, capability, pin.id);
    assert Fills(services, "", capability);
  }

  /** The rules find nothing broken, and the filler left in the stack names none of its services. */
  lemma EmptyFillerNamesNothing(w: World, pin: Pin, profile: string, text: string, table: Table,
                                manifest: string, capability: string, why: string, version: string)
    requires Lawful(w)
    requires Given(w, pin, profile, manifest, capability, why)
    requires w.parse(text) == Some(table) && Reads(table, BundleOf(pin, profile, capability, why))
    ensures var bundle, copies := BundleOf(pin, profile, capability, why), CopiesOf(pin, manifest);
            var stack := Final(w, table, HeldOf(bundle.plugin, copies), version);
            && Sound(w, bundle, copies)
            && Composed(w, text, HeldOf(bundle.plugin, copies), version) == Ok(w.printed(stack))
            && |Rows(stack, "wiring")| > 0
            && TextAt(Rows(stack, "wiring")[0], "filled_by").Some?
            && TextAt(Rows(stack, "wiring")[0], "filled_by") !in Ids(Rows(stack, "service"))
  {
    hide Final, Composed, TablesSound, PartSound, CopySound, DeclaredIn, PinSound, IsDay, IsId, Unfencing,
         Serviced, Reads, ManifestSound, TreeDigest.Digest, Blank, Lawful;
    var bundle, copies := BundleOf(pin, profile, capability, why), CopiesOf(pin, manifest);
    var held := HeldOf(bundle.plugin, copies);
    GivenCopySound(w, pin, profile, manifest, capability, why);
    GivenPartSound(w, pin, profile, manifest, capability, why);
    OnePart(w, pin, manifest);
    GivenTablesSound(w, pin, profile, manifest, capability, why, PartsOf(w, bundle.plugin, copies));
    assert pin in bundle.plugin;
    assert PinnedAs(bundle.plugin, pin.id);
    assert PartsSound(w, bundle, copies);
    assert Sound(w, bundle, copies);
    FillersNameServices(w, text, table, bundle, copies, version, 0);
    assert held[0].copy == manifest;
    assert !TakenOver(w, "", held);
  }

  lemma OnePart(w: World, pin: Pin, manifest: string)
    ensures PartsOf(w, [pin], CopiesOf(pin, manifest)) == map[pin.id := DeclaredIn(w, manifest)]
  {
    hide DeclaredIn;
    assert [pin][..0] == [];
    assert PartsOf(w, [], CopiesOf(pin, manifest)) == map[];
  }

  // ------------------------------------------------------- such a bundle

  function ServiceOf(id: string, why: string): Table {
    map["id" := Str(id), "replaces" := Str(id), "reaches" := Str(why), "asks_for" := Str(why)]
  }

  function IdlessOf(capability: string, why: string): Table {
    map["provides" := Array([Str(capability)]), "reaches" := Str(why), "asks_for" := Str(why)]
  }

  function AskTable(id: string, capability: string): Table {
    map["capability" := Str(capability), "service" := Str(id)]
  }

  /** A manifest that reads as `PartOf`. */
  function ManifestOf(id: string, capability: string, why: string): Table {
    map["plugin" := Tab(map["id" := Str(id)]),
        "service" := Array([Tab(ServiceOf(id, why)), Tab(IdlessOf(capability, why))]),
        "ask" := Array([Tab(AskTable(id, capability))])]
  }

  /** A bundle file that reads as the bundle, as far as its wiring. */
  function FileOf(id: string, capability: string, why: string): Table {
    map["wiring" := Array([Tab(map["by" := Str(id), "asks" := Str(capability), "filled_by" := Str(""),
                                   "why" := Str(why)])])]
  }

  lemma NoFixtures(t: Table)
    requires forall k | k in t :: FixturesAt(k, t[k]) == {}
    ensures Fixtures(Tab(t)) == {}
  {
  }

  lemma ManifestHasNone(id: string, capability: string, why: string)
    ensures Fixtures(Tab(ManifestOf(id, capability, why))) == {}
  {
    NoFixtures(map["id" := Str(id)]);
    NoFixtures(ServiceOf(id, why));
    assert Fixtures(Str(capability)) == {};
    NoFixtures(IdlessOf(capability, why));
    NoFixtures(AskTable(id, capability));
    NoFixtures(ManifestOf(id, capability, why));
  }

  lemma ManifestReads(w: World, id: string, capability: string, why: string)
    requires Lawful(w) && id != ""
    ensures var manifest := w.printed(ManifestOf(id, capability, why));
            && DeclaredIn(w, manifest) == PartOf(id, capability, why)
            && "" !in Serviced(w, manifest)
            && BundleRules.Named(w, manifest) == Some(id)
  {
    hide Fixtures;
    var table := ManifestOf(id, capability, why);
    var rows := Rows(table, "service");
    ManifestHasNone(id, capability, why);
    assert w.parse(w.printed(table)) == Some(table);
    OneWord(capability);
    assert DeclaredOf(rows[0]) == PartOf(id, capability, why).services[0];
    assert DeclaredOf(rows[1]) == PartOf(id, capability, why).services[1];
    OneNamed(rows[0], rows[1]);
  }

  lemma OneWord(text: string)
    ensures Words(Some(Array([Str(text)]))) == [text]
  {
    var items := [Str(text)];
    assert items[1..] == [];
    assert Toml.Texts(items) == [text] + Toml.Texts(items[1..]);
  }

  lemma OneNamed(one: Value, other: Value)
    requires TextAt(one, "id").Some? && TextAt(other, "id").None?
    ensures KeptParts.Named([one, other]) == [TextAt(one, "id").value]
  {
    assert [one, other][..1] == [one] && [one][..0] == [];
    assert KeptParts.Named([one]) == [TextAt(one, "id").value];
  }

  /** A pin of that manifest's plugin, at the installed stage. */
  ghost function PinOf(w: World, id: string, manifest: string): Pin {
    Pin(id, SECURE, None, seq(REVISION_DIGITS, _ => '0'), DIGEST_PREFIX + w.hash(manifest),
        Some(TreeDigest.Digest(w.hash, manifest, map[])), [], Some(Stage.Installed), Some(id), Some("2000-01-01"))
  }

  lemma DayOf(year: string, month: string, day: string)
    requires |year| == 4 && |month| == 2 && |day| == 2
    requires AllDigits(year) && AllDigits(month) && AllDigits(day)
    requires 1 <= DigitsValue(month) <= 12 && 1 <= DigitsValue(day) <= 31
    ensures IsDay(year + ['-'] + (month + ['-'] + day))
  {
    hide Split, DigitsValue;
    assert forall text, i | AllDigits(text) && 0 <= i < |text| :: text[i] != '-';
    SplitOfFree(year, '-');
    SplitOfFree(month, '-');
    SplitOfFree(day, '-');
    SplitOfConcat(month, day, '-');
    SplitOfConcat(year, month + ['-'] + day, '-');
    assert Split(year + ['-'] + (month + ['-'] + day), '-') == [year, month, day];
  }

  lemma ADay()
    ensures IsDay("2000-01-01")
  {
    assert "01"[..1] == "0" && "0"[..0] == "";
    assert DigitsValue("0") == 0;
    assert DigitsValue("01") == 1;
    assert "2000" + ['-'] + ("01" + ['-'] + "01") == "2000-01-01";
    hide IsDay, Split, DigitsValue;
    DayOf("2000", "01", "01");
  }

  lemma HashIsDigest(w: World, text: string)
    requires TreeDigest.Hexadecimal(w.hash)
    ensures IsDigest(DIGEST_PREFIX + w.hash(text))
  {
    assert (DIGEST_PREFIX + w.hash(text))[|DIGEST_PREFIX|..] == w.hash(text);
  }

  lemma PinOfSound(w: World, id: string, manifest: string)
    requires TreeDigest.Hexadecimal(w.hash)
    requires IsId(id) && forall c | c in SECURE :: !w.blank(c)
    ensures PinSound(w, PinOf(w, id, manifest))
  {
    hide IsId, IsDigest, TreeDigest.Digest, TreeDigest.Hexadecimal;
    HashIsDigest(w, manifest);
    TreeDigest.DigestLists(w.hash, manifest, map[]);
    HashIsDigest(w, TreeDigest.Listing(TreeDigest.Summed(w.hash, manifest, map[])));
  }

  /** In every world whose hash is one and whose secure scheme holds no blank, each plugin's id, each
      capability and each reason make such a bundle. */
  lemma GivenHappens(w: World, id: string, capability: string, why: string)
    requires Lawful(w) && TreeDigest.Hexadecimal(w.hash)
    requires IsId(id) && !Blank(w, why) && forall c | c in SECURE :: !w.blank(c)
    ensures var manifest := w.printed(ManifestOf(id, capability, why));
            Given(w, PinOf(w, id, manifest), id, manifest, capability, why)
  {
    var manifest := w.printed(ManifestOf(id, capability, why));
    assert id != "";
    hide DeclaredIn, Serviced, ManifestOf, IsId, IsDay, Blank, TreeDigest.Digest, Lawful, TreeDigest.Hexadecimal,
         PinSound, BundleRules.Named, PartOf;
    ManifestReads(w, id, capability, why);
    PinOfSound(w, id, manifest);
    ADay();
  }

  lemma FileReads(pin: Pin, capability: string, why: string)
    ensures Reads(FileOf(pin.id, capability, why), BundleOf(pin, pin.id, capability, why))
  {
  }

  /** So there it is: a bundle file and one copy that break no rule, and the stack that comes of them,
      whose choice of filler names no service of it. */
  lemma EmptyFillerHappens(w: World, id: string, capability: string, why: string, version: string)
    requires Lawful(w) && TreeDigest.Hexadecimal(w.hash)
    requires IsId(id) && !Blank(w, why) && forall c | c in SECURE :: !w.blank(c)
    ensures var manifest := w.printed(ManifestOf(id, capability, why));
            var pin, file := PinOf(w, id, manifest), FileOf(id, capability, why);
            var bundle, copies := BundleOf(pin, id, capability, why), CopiesOf(pin, manifest);
            var stack := Final(w, file, HeldOf(bundle.plugin, copies), version);
            && Reads(file, bundle) && Sound(w, bundle, copies)
            && Composed(w, w.printed(file), HeldOf(bundle.plugin, copies), version) == Ok(w.printed(stack))
            && |Rows(stack, "wiring")| > 0
            && TextAt(Rows(stack, "wiring")[0], "filled_by").Some?
            && TextAt(Rows(stack, "wiring")[0], "filled_by") !in Ids(Rows(stack, "service"))
  {
    var manifest := w.printed(ManifestOf(id, capability, why));
    var pin, file := PinOf(w, id, manifest), FileOf(id, capability, why);
    assert pin.id == id && w.parse(w.printed(file)) == Some(file);
    hide *;
    GivenHappens(w, id, capability, why);
    FileReads(pin, capability, why);
    EmptyFillerNamesNothing(w, pin, id, w.printed(file), file, manifest, capability, why, version);
  }
}
