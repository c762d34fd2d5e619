/** The rules of a schema 2 bundle all at once, as its manifests' rows must keep them. */
module RulesKept {
  import opened Outcomes
  import opened Sorting
  import opened Texts
  import opened Recognisers
  import opened Shapes
  import opened Toml
  import opened Bundles
  import TreeDigest
  import opened BundleRules
  import opened BundleChecker
  import opened RulesRead

  // ------------------------------------------------------- a pin

  /** Whether a text has a character that is not blank. */
  ghost predicate Worded(w: World, text: string) {
    exists c :: c in text && !w.blank(c)
  }

  ghost predicate PinKept(w: World, pin: Pin) {
    && IdShape(pin.id)
    && "https://" <= pin.origin && (forall c | c in pin.origin :: !w.blank(c))
    && (pin.release.Some? ==> ReleaseShape(pin.release.value))
    && HexShape(pin.revision, 40)
    && DigestShape(pin.manifest)
    && (pin.tree.Some? ==> DigestShape(pin.tree.value))
    && (forall i | 0 <= i < |pin.fills| :: Worded(w, pin.fills[i]))
    && (forall i, j | 0 <= i < j < |pin.fills| :: pin.fills[i] != pin.fills[j])
  }

  lemma PinRead(w: World, pin: Pin)
    ensures PinSound(w, pin) <==> PinKept(w, pin)
  {
    hide IdShape, ReleaseShape, HexShape, DigestShape, IsId, IsRelease, IsHex, IsDigest;
    IdMeans(pin.id);
    HexMeans(pin.revision, 40);
    DigestMeans(pin.manifest);
    if pin.release.Some? {
      ReleaseMeans(pin.release.value);
    }
    if pin.tree.Some? {
      DigestMeans(pin.tree.value);
    }
    assert forall text :: Blank(w, text) <==> !Worded(w, text);
  }

  /** A fence is an image of the one name, at a release or at a commit of its main branch. */
  ghost predicate FenceKept(fence: Image) {
    && fence.image == "ghcr.io/lemonfiber/fence"
    && (ReleaseShape(fence.tag) || CommitShape(fence.tag))
    && DigestShape(fence.digest)
  }

  lemma FenceRead(fence: Image, schema: nat)
    ensures FenceSound(fence, schema) <==> schema != 1 && FenceKept(fence)
  {
    ReleaseMeans(fence.tag);
    CommitMeans(fence.tag);
    DigestMeans(fence.digest);
  }

  // ------------------------------------------------------- a copy

  /** Whether a path is a recording, a fixture the manifest names, or a starting file of one of its
      services. */
  ghost predicate Belongs(manifest: Table, path: string) {
    || StartsWith(path, "conformance/")
    || NamesFixture(Tab(manifest), path)
    || exists row :: row in Rows(manifest, "service") && StartsWith(path, "config/" + SaidAt(row, "id") + "/")
  }

  /** The ids a part declares are what its rows say, row by row. */
  lemma IdsRead(w: World, text: string)
    requires w.parse(text).Some?
    ensures var ids, rows := ServiceIds(DeclaredIn(w, text)), Rows(w.parse(text).value, "service");
            |ids| == |rows| && forall i | 0 <= i < |rows| :: ids[i] == SaidAt(rows[i], "id")
  {
    var part, rows := DeclaredIn(w, text), Rows(w.parse(text).value, "service");
    forall i | 0 <= i < |rows|
      ensures part.services[i].id == SaidAt(rows[i], "id")
    {
      DeclaredReads(rows[i]);
    }
    hide Fixtures;
  }

  lemma FixturesOf(w: World, text: string)
    requires w.parse(text).Some?
    ensures DeclaredIn(w, text).fixtures == Fixtures(Tab(w.parse(text).value))
  {
    hide Fixtures;
  }

  lemma BelongsRead(w: World, text: string, path: string)
    requires w.parse(text).Some?
    ensures var part := DeclaredIn(w, text);
            TreeDigest.Holds(path, ServiceIds(part), part.fixtures) <==> Belongs(w.parse(text).value, path)
  {
    hide NamesFixture, Fixtures, DeclaredIn, SaidAt, ServiceIds, Rows, StartsWith;
    var part, table := DeclaredIn(w, text), w.parse(text).value;
    var rows, ids := Rows(table, "service"), ServiceIds(part);
    FixturesRead(Tab(table), path);
    FixturesOf(w, text);
    IdsRead(w, text);
    assert TreeDigest.CONFIG + "/" == "config/" && TreeDigest.CONFORMANCE + "/" == "conformance/";
    if id :| id in ids && StartsWith(path, "config/" + id + "/") {
      var i :| 0 <= i < |ids| && ids[i] == id;
      assert rows[i] in rows;
    }
    if row :| row in rows && StartsWith(path, "config/" + SaidAt(row, "id") + "/") {
      var i :| 0 <= i < |rows| && rows[i] == row;
      assert ids[i] in ids;
    }
  }

  /** The files a service starts with. */
  ghost function StartingFiles(files: map<string, string>, service: string): set<string> {
    set p | p in files && StartsWith(p, "config/" + service + "/")
  }

  function Bytes(files: map<string, string>, paths: seq<string>): nat
    requires forall p | p in paths :: p in files
  {
    if paths == [] then 0 else Bytes(files, paths[..|paths| - 1]) + |files[paths[|paths| - 1]]|
  }

  /** No more than 64 of them, nor more than a mebibyte. */
  ghost predicate LightEnough(files: map<string, string>, service: string) {
    var starting := StartingFiles(files, service);
    |starting| <= 64 && Bytes(files, SortedTexts(starting)) <= 1048576
  }

  lemma StartingStep(files: map<string, string>, service: string, paths: seq<string>)
    requires paths != [] && forall p | p in paths :: p in files
    ensures var (count, weight) := Starting(files, service, paths[..|paths| - 1]);
            var last := paths[|paths| - 1];
            Starting(files, service, paths)
              == if StartsWith(last, "config/" + service + "/") then (count + 1, weight + |files[last]|)
                 else (count, weight)
  {
    assert TreeDigest.CONFIG + "/" == "config/";
  }

  lemma BytesMore(files: map<string, string>, paths: seq<string>, path: string)
    requires path in files && forall p | p in paths :: p in files
    ensures Bytes(files, paths + [path]) == Bytes(files, paths) + |files[path]|
  {
    assert (paths + [path])[..|paths|] == paths;
  }

  ghost predicate Ascend(paths: seq<string>) {
    forall i, j | 0 <= i < j < |paths| :: Before(paths[i], paths[j])
  }

  lemma AscendMore(paths: seq<string>, path: string)
    requires Ascend(paths) && forall p | p in paths :: Before(p, path)
    ensures Ascend(paths + [path])
  {
    hide Before;
  }

  /** The paths that begin with `prefix`, in their order. */
  function Picks(paths: seq<string>, prefix: string): seq<string> {
    if paths == [] then []
    else
      var rest, last := Picks(paths[..|paths| - 1], prefix), paths[|paths| - 1];
      if StartsWith(last, prefix) then rest + [last] else rest
  }

  lemma {:induction false} PicksHold(paths: seq<string>, prefix: string)
    ensures forall p :: p in Picks(paths, prefix) <==> p in paths && StartsWith(p, prefix)
  {
    hide StartsWith;
    if paths != [] {
      var init, last := paths[..|paths| - 1], paths[|paths| - 1];
      assert paths == init + [last];
      PicksHold(init, prefix);
    }
  }

  lemma {:induction false} PicksAscend(paths: seq<string>, prefix: string)
    requires Ascend(paths)
    ensures Ascend(Picks(paths, prefix))
  {
    hide StartsWith, Before;
    if paths != [] {
      var init, last := paths[..|paths| - 1], paths[|paths| - 1];
      PicksAscend(init, prefix);
      PicksHold(init, prefix);
      assert forall p | p in init :: Before(p, last);
      hide Ascend;
      if StartsWith(last, prefix) {
        AscendMore(Picks(init, prefix), last);
      }
    }
  }

  lemma {:induction false} StartingSum(files: map<string, string>, service: string, paths: seq<string>)
    requires forall p | p in paths :: p in files
    ensures forall p | p in Picks(paths, "config/" + service + "/") :: p in files
    ensures var picked := Picks(paths, "config/" + service + "/");
            Starting(files, service, paths) == (|picked|, Bytes(files, picked))
  {
    var prefix := "config/" + service + "/";
    PicksHold(paths, prefix);
    hide StartsWith, Bytes;
    if paths == [] {
      assert Picks(paths, prefix) == [];
      NoBytes(files);
    } else {
      var init, last := paths[..|paths| - 1], paths[|paths| - 1];
      StartingSum(files, service, init);
      StartingStep(files, service, paths);
      hide Starting;
      if StartsWith(last, prefix) {
        BytesMore(files, Picks(init, prefix), last);
      }
    }
  }

  lemma NoBytes(files: map<string, string>)
    ensures Bytes(files, []) == 0
  {
  }

  lemma LightRead(files: map<string, string>, service: string)
    ensures Light(files, service) <==> LightEnough(files, service)
  {
    var all, prefix := SortedTexts(files.Keys), "config/" + service + "/";
    StartingSum(files, service, all);
    PicksHold(all, prefix);
    PicksAscend(all, prefix);
    TreeDigest.SortedList(Picks(all, prefix), StartingFiles(files, service));
    hide Before, StartsWith, Starting, Bytes, Picks;
  }

  /** Whether no two paths of a copy, its manifest's too, are one in lower case. */
  ghost predicate CasesKept(w: World, files: map<string, string>) {
    && "plugin.toml" !in files
    && forall p, q | p in files.Keys + {"plugin.toml"} && q in files.Keys + {"plugin.toml"} && p != q ::
         w.lower(p) != w.lower(q)
  }

  lemma CasesRead(w: World, copy: Copy)
    requires copy.manifest.Some?
    ensures CasesApart(w, copy) <==> CasesKept(w, copy.files)
  {
    var paths, sorted := Paths(copy), SortedTexts(copy.files.Keys);
    assert paths == ["plugin.toml"] + sorted;
    SortedOnceEach(copy.files.Keys);
    assert forall p :: p in sorted <==> p in copy.files.Keys;
    hide SortedTexts, Paths;
    ApartOrNot(w, paths, sorted, "plugin.toml");
  }

  ghost predicate Apart(w: World, paths: seq<string>) {
    forall i, j | 0 <= i < j < |paths| :: w.lower(paths[i]) != w.lower(paths[j])
  }

  /** A list of texts of which only the first may be there twice. */
  lemma ApartOrNot(w: World, paths: seq<string>, sorted: seq<string>, first: string)
    requires paths == [first] + sorted
    requires forall i, j | 0 <= i < j < |sorted| :: sorted[i] != sorted[j]
    ensures Apart(w, paths)
       <==> first !in sorted && forall p, q | (p == first || p in sorted) && (q == first || q in sorted) && p != q ::
                                  w.lower(p) != w.lower(q)
  {
    if Apart(w, paths) {
      ApartTexts(w, paths, sorted, first);
    } else {
      var i, j :| 0 <= i < j < |paths| && w.lower(paths[i]) == w.lower(paths[j]);
      assert paths[j] == sorted[j - 1] && sorted[j - 1] in sorted;
      assert i > 0 ==> paths[i] == sorted[i - 1] && sorted[i - 1] in sorted;
    }
  }

  lemma ApartTexts(w: World, paths: seq<string>, sorted: seq<string>, first: string)
    requires paths == [first] + sorted && Apart(w, paths)
    ensures first !in sorted
    ensures forall p, q | (p == first || p in sorted) && (q == first || q in sorted) && p != q ::
              w.lower(p) != w.lower(q)
  {
    forall k | 0 <= k < |sorted|
      ensures sorted[k] != first
    {
      assert paths[0] == first && paths[k + 1] == sorted[k];
    }
    forall p, q | (p == first || p in sorted) && (q == first || q in sorted) && p != q
      ensures w.lower(p) != w.lower(q)
    {
      assert forall k | 0 <= k < |sorted| :: paths[k + 1] == sorted[k];
      assert paths[0] == first;
      var i :| 0 <= i < |paths| && paths[i] == p;
      var j :| 0 <= j < |paths| && paths[j] == q;
    }
  }

  lemma SortedOnceEach(s: set<string>)
    ensures forall i, j | 0 <= i < j < |SortedTexts(s)| :: SortedTexts(s)[i] != SortedTexts(s)[j]
  {
    var sorted := SortedTexts(s);
    hide SortedTexts, Before;
    forall i, j | 0 <= i < j < |sorted|
      ensures sorted[i] != sorted[j]
    {
      BeforeStrict(sorted[i]);
    }
  }

  /** A copy is of its pin's own manifest and tree, holds no link, and holds what the manifest calls
      for and no more of it than may be. */
  ghost predicate CopyKept(w: World, pin: Pin, copies: map<string, Copy>) {
    && pin.id in copies && copies[pin.id].manifest.Some? && copies[pin.id].links == []
    && var text, files := copies[pin.id].manifest.value, copies[pin.id].files;
       && CasesKept(w, files)
       && pin.manifest == "sha256:" + w.hash(text)
       && (pin.tree.Some? ==> pin.tree.value == TreeDigest.Digest(w.hash, text, files))
       && w.parse(text).Some?
       && var manifest := w.parse(text).value;
          && Field(manifest, "plugin").Some? && Get(manifest["plugin"], "id") == Some(Str(pin.id))
          && "profile" !in manifest && "form" !in manifest && "removed" !in manifest
          && (forall p | p in files :: Belongs(manifest, p))
          && (forall row | row in Rows(manifest, "service") :: LightEnough(files, SaidAt(row, "id")))
  }

  lemma TablesRead(w: World, text: string)
    requires w.parse(text).Some?
    ensures var manifest := w.parse(text).value;
            var none := "profile" !in manifest && "form" !in manifest && "removed" !in manifest;
            DeclaredIn(w, text).tables == {} <==> none
  {
    var manifest := w.parse(text).value;
    assert STACK_TABLES[0] == "profile" && STACK_TABLES[1] == "form" && STACK_TABLES[2] == "removed";
    assert forall name :: name in STACK_TABLES <==> name == "profile" || name == "form" || name == "removed";
    hide Fixtures;
    assert forall name :: name in DeclaredIn(w, text).tables <==> name in STACK_TABLES && name in manifest;
  }

  lemma EachLight(w: World, text: string, files: map<string, string>)
    requires w.parse(text).Some?
    ensures (forall one | one in DeclaredIn(w, text).services :: Light(files, one.id))
       <==> forall row | row in Rows(w.parse(text).value, "service") :: LightEnough(files, SaidAt(row, "id"))
  {
    var services, rows := DeclaredIn(w, text).services, Rows(w.parse(text).value, "service");
    assert |services| == |rows|;
    forall i | 0 <= i < |rows|
      ensures Light(files, services[i].id) <==> LightEnough(files, SaidAt(rows[i], "id"))
    {
      DeclaredReads(rows[i]);
      LightRead(files, services[i].id);
    }
    hide DeclaredIn, Light, LightEnough;
    if forall one | one in services :: Light(files, one.id) {
      forall row | row in rows
        ensures LightEnough(files, SaidAt(row, "id"))
      {
        var i :| 0 <= i < |rows| && rows[i] == row;
        assert services[i] in services;
      }
    }
    if forall row | row in rows :: LightEnough(files, SaidAt(row, "id")) {
      forall one | one in services
        ensures Light(files, one.id)
      {
        var i :| 0 <= i < |services| && services[i] == one;
        assert rows[i] in rows;
      }
    }
  }

  lemma CopyRead(w: World, pin: Pin, copies: map<string, Copy>)
    ensures CopySound(w, pin, copies) <==> CopyKept(w, pin, copies)
  {
    if pin.id in copies && copies[pin.id].manifest.Some? {
      var text, files := copies[pin.id].manifest.value, copies[pin.id].files;
      CasesRead(w, copies[pin.id]);
      if w.parse(text).Some? {
        TablesRead(w, text);
        EachLight(w, text, files);
        forall p
          ensures TreeDigest.Holds(p, ServiceIds(DeclaredIn(w, text)), DeclaredIn(w, text).fixtures)
             <==> Belongs(w.parse(text).value, p)
        {
          BelongsRead(w, text, p);
        }
      }
    }
    hide CasesApart, CasesKept, DeclaredIn, Light, LightEnough, TreeDigest.Holds, TreeDigest.Digest, Belongs;
    hide ServiceIds, Rows;
  }

  // ------------------------------------------------------- a part at its stage

  /** An assembled part is one service under its pin's id that speaks no contract, with its fixtures
      among its own recordings; an installed one has a service that takes the place of its own id. */
  ghost predicate StageKept(pin: Pin, manifest: Table) {
    var rows := Rows(manifest, "service");
    match pin.stage
    case Some(Assembled) =>
      && |rows| == 1 && SaidAt(rows[0], "id") == pin.id
      && (forall spoken :: !Lists(rows[0], "speaks", spoken))
      && (forall path | NamesFixture(Tab(manifest), path) :: StartsWith(path, "recordings/" + pin.id + "/"))
    case Some(Installed) =>
      exists row :: row in rows && SaidAt(row, "id") == pin.id && TextAt(row, "replaces") == Some(pin.id)
    case None => true
  }

  lemma AssembledRead(w: World, pin: Pin, text: string)
    requires w.parse(text).Some? && pin.stage == Some(Stage.Assembled)
    ensures StageSound(pin, DeclaredIn(w, text)) <==> StageKept(pin, w.parse(text).value)
  {
    var part, table := DeclaredIn(w, text), w.parse(text).value;
    var rows := Rows(table, "service");
    FixturesOf(w, text);
    RowsDeclared(w, text);
    hide DeclaredIn, DeclaredOf, Fixtures, NamesFixture, StartsWith, Lists, Rows;
    if |rows| == 1 {
      DeclaredReads(rows[0]);
      NoSpoken(part.services[0].speaks);
    }
    forall path
      ensures path in part.fixtures <==> NamesFixture(Tab(table), path)
    {
      FixturesRead(Tab(table), path);
    }
    assert "recordings" + "/" == "recordings/";
  }

  lemma RowsReplace(w: World, text: string)
    requires w.parse(text).Some?
    ensures var services, rows := DeclaredIn(w, text).services, Rows(w.parse(text).value, "service");
            && |services| == |rows|
            && forall i | 0 <= i < |rows| ::
                 services[i].id == SaidAt(rows[i], "id") && services[i].replacing == TextAt(rows[i], "replaces")
  {
    var services, rows := DeclaredIn(w, text).services, Rows(w.parse(text).value, "service");
    RowsDeclared(w, text);
    hide DeclaredIn, DeclaredOf, Lists, TextAt;
    forall i | 0 <= i < |rows|
      ensures services[i].id == SaidAt(rows[i], "id") && services[i].replacing == TextAt(rows[i], "replaces")
    {
      DeclaredReads(rows[i]);
      ReplacingText(rows[i]);
    }
  }

  lemma RowsInPlace(services: seq<Declared>, rows: seq<Value>, id: string)
    requires |services| == |rows|
    requires forall i | 0 <= i < |rows| ::
               services[i].id == SaidAt(rows[i], "id") && services[i].replacing == TextAt(rows[i], "replaces")
    ensures (exists one :: one in services && one.id == id && one.replacing == Some(id))
       <==> exists row :: row in rows && SaidAt(row, "id") == id && TextAt(row, "replaces") == Some(id)
  {
    hide SaidAt, TextAt;
    if one :| one in services && one.id == id && one.replacing == Some(id) {
      var i :| 0 <= i < |services| && services[i] == one;
      assert rows[i] in rows;
    }
    if row :| row in rows && SaidAt(row, "id") == id && TextAt(row, "replaces") == Some(id) {
      var i :| 0 <= i < |rows| && rows[i] == row;
      assert services[i] in services;
    }
  }

  lemma InstalledRead(w: World, pin: Pin, text: string)
    requires w.parse(text).Some? && pin.stage == Some(Stage.Installed)
    ensures StageSound(pin, DeclaredIn(w, text)) <==> StageKept(pin, w.parse(text).value)
  {
    hide DeclaredIn, Rows, TextAt;
    RowsReplace(w, text);
    RowsInPlace(DeclaredIn(w, text).services, Rows(w.parse(text).value, "service"), pin.id);
  }

  lemma StageRead(w: World, pin: Pin, text: string)
    requires w.parse(text).Some?
    ensures StageSound(pin, DeclaredIn(w, text)) <==> StageKept(pin, w.parse(text).value)
  {
    match pin.stage {
      case Some(Assembled) => AssembledRead(w, pin, text);
      case Some(Installed) => InstalledRead(w, pin, text);
      case None =>
    }
  }

  lemma NoSpoken(speaks: seq<string>)
    ensures speaks == [] <==> forall spoken :: spoken !in speaks
  {
    if speaks != [] {
      assert speaks[0] in speaks;
    }
  }

  lemma ReplacingText(row: Value)
    ensures DeclaredOf(row).replacing == TextAt(row, "replaces")
  {
  }

  lemma RowsDeclared(w: World, text: string)
    requires w.parse(text).Some?
    ensures var services, rows := DeclaredIn(w, text).services, Rows(w.parse(text).value, "service");
            |services| == |rows| && forall i | 0 <= i < |rows| :: services[i] == DeclaredOf(rows[i])
  {
    hide Fixtures, DeclaredOf;
  }

  /** A service has a text for its reach, and at least one word for its asks. */
  ghost predicate SaysBoth(w: World, row: Value) {
    TextAt(row, "reaches").Some? && Worded(w, SaidAt(row, "asks_for"))
  }

  lemma SaysRead(w: World, row: Value)
    ensures Says(w, DeclaredOf(row)) <==> SaysBoth(w, row)
  {
    DeclaredReads(row);
    hide DeclaredOf, Lists;
    assert TextAt(row, "asks_for").Some? ==> TextAt(row, "asks_for").value == SaidAt(row, "asks_for");
  }

  ghost predicate PartKept(w: World, pin: Pin, manifest: Table, bundle: Bundle) {
    && pin.tree.Some? && pin.stage.Some? && pin.profile.Some? && pin.lastRelease.Some?
    && DayShape(pin.lastRelease.value)
    && StageKept(pin, manifest)
    && (forall row | row in Rows(manifest, "service") :: SaysBoth(w, row))
    && pin.profile.value in bundle.profile
    && (forall id :: HasForm(bundle, pin.profile.value, id) <==> SaysForm(manifest, id))
  }

  /** Whether the bundle puts the profile in the form. */
  ghost predicate HasForm(bundle: Bundle, profile: string, id: string) {
    exists form :: form in bundle.form && form.id == id && profile in form.profiles
  }

  /** Whether the plugin says it takes the form. */
  ghost predicate SaysForm(manifest: Table, id: string) {
    Field(manifest, "plugin").Some? && Lists(manifest["plugin"], "forms", id)
  }

  lemma FormsRead(w: World, text: string, id: string)
    requires w.parse(text).Some?
    ensures id in DeclaredIn(w, text).forms <==> SaysForm(w.parse(text).value, id)
  {
    var manifest := w.parse(text).value;
    if Field(manifest, "plugin").Some? {
      TextsHold(AsArray(Get(manifest["plugin"], "forms")), id);
    }
    hide Fixtures;
  }

  lemma EachSays(w: World, text: string)
    requires w.parse(text).Some?
    ensures (forall one | one in DeclaredIn(w, text).services :: Says(w, one))
       <==> forall row | row in Rows(w.parse(text).value, "service") :: SaysBoth(w, row)
  {
    var services, rows := DeclaredIn(w, text).services, Rows(w.parse(text).value, "service");
    RowsDeclared(w, text);
    forall i | 0 <= i < |rows|
      ensures Says(w, services[i]) <==> SaysBoth(w, rows[i])
    {
      SaysRead(w, rows[i]);
    }
    hide DeclaredIn, SaysBoth, Says;
    if forall one | one in services :: Says(w, one) {
      forall row | row in rows
        ensures SaysBoth(w, row)
      {
        var i :| 0 <= i < |rows| && rows[i] == row;
        assert services[i] in services;
      }
    }
    if forall row | row in rows :: SaysBoth(w, row) {
      forall one | one in services
        ensures Says(w, one)
      {
        var i :| 0 <= i < |services| && services[i] == one;
        assert rows[i] in rows;
      }
    }
  }

  lemma PartRead(w: World, pin: Pin, text: string, bundle: Bundle)
    requires w.parse(text).Some?
    ensures PartSound(w, pin, DeclaredIn(w, text), bundle) <==> PartKept(w, pin, w.parse(text).value, bundle)
  {
    var part := DeclaredIn(w, text);
    StageRead(w, pin, text);
    EachSays(w, text);
    if pin.lastRelease.Some? {
      DayMeans(pin.lastRelease.value);
    }
    forall id
      ensures id in part.forms <==> SaysForm(w.parse(text).value, id)
    {
      FormsRead(w, text, id);
    }
    hide DeclaredIn, StageSound, StageKept, Says, SaysBoth, IsDay, DayShape, SaysForm, HasForm, Holding, Rows;
    if pin.profile.Some? {
      SameForms(bundle, pin.profile.value, part.forms);
    }
  }

  lemma SameForms(bundle: Bundle, profile: string, forms: seq<string>)
    ensures Holding(bundle, profile) == (set form | form in forms)
       <==> forall id :: HasForm(bundle, profile, id) <==> id in forms
  {
    var held, named := Holding(bundle, profile), set form | form in forms;
    assert forall id :: id in held <==> HasForm(bundle, profile, id);
    assert forall id :: id in named <==> id in forms;
  }

  // ------------------------------------------------------- every rule

  /** Profiles and forms are ids named once, and a form names profiles of the bundle. */
  ghost predicate NamesKept(bundle: Bundle) {
    && (forall p | p in bundle.profile :: IdShape(p))
    && (forall i, j | 0 <= i < j < |bundle.profile| :: bundle.profile[i] != bundle.profile[j])
    && (forall form | form in bundle.form :: IdShape(form.id))
    && (forall i, j | 0 <= i < j < |bundle.form| :: bundle.form[i].id != bundle.form[j].id)
    && (forall form | form in bundle.form :: forall p | p in form.profiles :: p in bundle.profile)
  }

  /** What is removed is not pinned, and what replaces it is. */
  ghost predicate RemovalKept(removed: Removed, pins: seq<Pin>) {
    && !PinnedAs(pins, removed.id)
    && (removed.replacedBy.Some? ==> PinnedAs(pins, removed.replacedBy.value))
  }

  /** Whether no service of the part is fenced or renders. */
  ghost predicate Open(manifest: Table) {
    forall row | row in Rows(manifest, "service") :: !BehindFence(row) && Get(row, "shape") != Some(Str("render"))
  }

  /** Whether a pin, its copy and the part its copy declares keep every rule about them. */
  ghost predicate EachKept(w: World, pin: Pin, bundle: Bundle, copies: map<string, Copy>) {
    && CopyKept(w, pin, copies)
    && PartKept(w, pin, w.parse(copies[pin.id].manifest.value).value, bundle)
  }

  /** All that is asked of a schema 2 bundle, stated of its own tables and its copies' rows. */
  ghost predicate Kept(w: World, bundle: Bundle, copies: map<string, Copy>) {
    && (forall i | 0 < i < |bundle.plugin| :: Before(bundle.plugin[i - 1].id, bundle.plugin[i].id))
    && (forall pin | pin in bundle.plugin :: PinKept(w, pin) && EachKept(w, pin, bundle, copies))
    && (forall id | id in copies :: PinnedAs(bundle.plugin, id))
    && (bundle.fence.Some? ==> FenceKept(bundle.fence.value))
    && NamesKept(bundle)
    && (forall removed | removed in bundle.removed :: RemovalKept(removed, bundle.plugin))
    && (forall wiring | wiring in bundle.wiring :: WiringKept(w, wiring, bundle.plugin, copies))
    && (bundle.fence.None? ==>
          forall pin | pin in bundle.plugin && ManifestOf(w, pin, copies).Some? ::
            Open(ManifestOf(w, pin, copies).value))
  }

  lemma NamesRead(bundle: Bundle)
    ensures ProfilesSound(bundle.profile) && FormsSound(bundle.form, set p | p in bundle.profile) <==> NamesKept(bundle)
  {
    hide IdShape, IsId;
    forall text
      ensures IsId(text) <==> IdShape(text)
    {
      IdMeans(text);
    }
  }

  lemma EachRead(w: World, pin: Pin, bundle: Bundle, copies: map<string, Copy>)
    ensures PinnedPartSound(w, pin, bundle, copies) <==> EachKept(w, pin, bundle, copies)
  {
    CopyRead(w, pin, copies);
    if CopyKept(w, pin, copies) {
      PartRead(w, pin, copies[pin.id].manifest.value, bundle);
    }
    hide CopySound, PartSound, PartKept, DeclaredIn;
  }

  lemma OpenRead(w: World, text: string)
    requires w.parse(text).Some?
    ensures (forall one | one in DeclaredIn(w, text).services :: !one.fenced && !one.renders)
       <==> Open(w.parse(text).value)
  {
    var services, rows := DeclaredIn(w, text).services, Rows(w.parse(text).value, "service");
    RowsDeclared(w, text);
    hide DeclaredIn, DeclaredOf, Lists, BehindFence;
    forall i | 0 <= i < |rows|
      ensures (!services[i].fenced && !services[i].renders)
         <==> !BehindFence(rows[i]) && Get(rows[i], "shape") != Some(Str("render"))
    {
      DeclaredReads(rows[i]);
    }
    if forall one | one in services :: !one.fenced && !one.renders {
      forall row | row in rows
        ensures !BehindFence(row) && Get(row, "shape") != Some(Str("render"))
      {
        var i :| 0 <= i < |rows| && rows[i] == row;
        assert services[i] in services;
      }
    }
    if Open(w.parse(text).value) {
      forall one | one in services
        ensures !one.fenced && !one.renders
      {
        var i :| 0 <= i < |services| && services[i] == one;
        assert rows[i] in rows;
      }
    }
  }

  lemma UnfencedRead(w: World, bundle: Bundle, copies: map<string, Copy>)
    requires forall pin | pin in bundle.plugin :: ManifestOf(w, pin, copies).Some?
    ensures Unfencing(PartsOf(w, bundle.plugin, copies))
       <==> forall pin | pin in bundle.plugin && ManifestOf(w, pin, copies).Some? ::
              Open(ManifestOf(w, pin, copies).value)
  {
    var parts := PartsOf(w, bundle.plugin, copies);
    hide PartsOf, DeclaredIn, Open;
    forall pin | pin in bundle.plugin
      ensures pin.id in parts
      ensures (forall one | one in parts[pin.id].services :: !one.fenced && !one.renders)
         <==> Open(ManifestOf(w, pin, copies).value)
    {
      assert PinnedAs(bundle.plugin, pin.id);
      PartsOfPinned(w, bundle.plugin, copies, pin.id);
      OpenRead(w, copies[pin.id].manifest.value);
    }
    forall p | p in parts
      ensures exists pin :: pin in bundle.plugin && pin.id == p
    {
      var pin := PinOf(w, bundle.plugin, copies, p);
    }
  }

  lemma RemovalRead(w: World, bundle: Bundle, copies: map<string, Copy>, removed: Removed)
    requires forall pin | pin in bundle.plugin :: ManifestOf(w, pin, copies).Some?
    ensures RemovedSound(removed, PartsOf(w, bundle.plugin, copies)) <==> RemovalKept(removed, bundle.plugin)
  {
    hide DeclaredIn, PartsOf;
    forall id
      ensures id in PartsOf(w, bundle.plugin, copies) <==> PinnedAs(bundle.plugin, id)
    {
      PartsOfPinned(w, bundle.plugin, copies, id);
      if pin :| pin in bundle.plugin && pin.id == id {
        assert ManifestOf(w, pin, copies).Some?;
      }
    }
  }

  lemma EachHasManifest(w: World, pin: Pin, bundle: Bundle, copies: map<string, Copy>)
    requires EachKept(w, pin, bundle, copies)
    ensures ManifestOf(w, pin, copies).Some?
  {
  }

  /** Nothing is found broken in a schema 2 bundle exactly where everything is kept. */
  lemma SoundMeans(w: World, bundle: Bundle, copies: map<string, Copy>)
    requires bundle.schema == 2
    ensures Sound(w, bundle, copies) <==> Kept(w, bundle, copies)
  {
    hide PinSound, PinKept, EachKept, PinnedPartSound, FenceSound, FenceKept, NamesKept, ProfilesSound, FormsSound,
         RemovedSound, RemovalKept, WiringSound, WiringKept, Unfencing, Open, PartsOf, Catalogue, Before, PinnedAs,
         ManifestOf;
    NamesRead(bundle);
    if bundle.fence.Some? {
      FenceRead(bundle.fence.value, 2);
    }
    forall pin | pin in bundle.plugin
      ensures PinSound(w, pin) <==> PinKept(w, pin)
      ensures PinnedPartSound(w, pin, bundle, copies) <==> EachKept(w, pin, bundle, copies)
    {
      PinRead(w, pin);
      EachRead(w, pin, bundle, copies);
    }
    forall wiring | wiring in bundle.wiring
      ensures WiringSound(w, wiring, PartsOf(w, bundle.plugin, copies), Catalogue(PartsOf(w, bundle.plugin, copies)))
         <==> WiringKept(w, wiring, bundle.plugin, copies)
    {
      WiringRead(w, wiring, bundle.plugin, copies);
    }
    if forall pin | pin in bundle.plugin :: EachKept(w, pin, bundle, copies) {
      forall pin | pin in bundle.plugin
        ensures ManifestOf(w, pin, copies).Some?
      {
        EachHasManifest(w, pin, bundle, copies);
      }
      UnfencedRead(w, bundle, copies);
      forall removed | removed in bundle.removed
        ensures RemovedSound(removed, PartsOf(w, bundle.plugin, copies)) <==> RemovalKept(removed, bundle.plugin)
      {
        RemovalRead(w, bundle, copies, removed);
      }
    }
  }
}
