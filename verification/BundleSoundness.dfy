/** What the rules' silence promises: a bundle that breaks no rule is assembled and kept without
    fail, into a stack of exactly one service for each pin. */
module BundleSoundness {
  import opened Outcomes
  import opened Sorting
  import opened Toml
  import opened Bundles
  import opened BundleRules
  import opened BundleChecker
  import opened Assembly
  import opened KeptParts

  // ------------------------------------------------------- one service

  /** What `stacked` neither takes away nor writes over. */
  lemma StackedKeeps(one: Held, manifest: Table, written: Table, key: string)
    requires key in {"id", "provides"}
    requires AsStr(Field(written, "id")).Some?
    requires one.pin.profile.Some? && one.pin.lastRelease.Some?
    ensures Stacked(one, manifest, written).Ok?
    ensures Field(Stacked(one, manifest, written).value.0, key) == Field(written, key)
  {
    var plugin := AsTable(Field(manifest, "plugin"));
    if plugin.Some? && key in Renamed(plugin.value, FROM_PLUGIN) {
      RenamedKeys(plugin.value, FROM_PLUGIN, key);
    }
  }

  /** A part its rules call sound, as held for the transformer. */
  ghost predicate Ready(w: World, one: Held) {
    && one.pin.id != ""
    && one.pin.profile.Some? && one.pin.lastRelease.Some?
    && one.pin.stage.Some?
    && StageSound(one.pin, DeclaredIn(w, one.copy))
  }

  /** The rows of the services a held copy declares. */
  ghost function ServiceRows(w: World, one: Held): seq<Value> {
    match w.parse(one.copy)
    case None => []
    case Some(manifest) => Rows(manifest, "service")
  }

  lemma DeclaredRows(w: World, one: Held)
    ensures |DeclaredIn(w, one.copy).services| == |ServiceRows(w, one)|
    ensures forall i | 0 <= i < |ServiceRows(w, one)| ::
              DeclaredIn(w, one.copy).services[i] == DeclaredOf(ServiceRows(w, one)[i])
  {
  }

  /** An assembled part's service is written, under its pin's id, providing what it declares. */
  lemma ServiceReady(w: World, one: Held)
    requires Ready(w, one) && one.pin.stage == Some(Stage.Assembled)
    ensures Service(w, one).Ok?
    ensures AsStr(Field(Service(w, one).value.0, "id")) == Some(one.pin.id)
    ensures |ServiceRows(w, one)| == 1
    ensures Field(Service(w, one).value.0, "provides") == Get(ServiceRows(w, one)[0], "provides")
  {
    DeclaredRows(w, one);
    var manifest := w.parse(one.copy).value;
    var row := Rows(manifest, "service")[0];
    assert Or(TextAt(row, "id"), "") == one.pin.id;
    StackedKeeps(one, manifest, row.table, "id");
    StackedKeeps(one, manifest, row.table, "provides");
    var written := AsWritten(manifest, FROM_MANIFEST);
    forall key | key in {"id", "provides"}
      ensures key !in written
    {
      if key in written {
        AsWrittenKeys(manifest, FROM_MANIFEST, key);
      }
    }
  }

  lemma {:induction false} FirstOfThere(rows: seq<Value>, id: string, i: nat)
    requires i < |rows| && TextAt(rows[i], "id") == Some(id)
    ensures FirstOf(rows, id).Some?
    ensures exists j :: 0 <= j < |rows| && rows[j] == Tab(FirstOf(rows, id).value) && TextAt(rows[j], "id") == Some(id)
  {
    if TextAt(rows[0], "id") != Some(id) {
      FirstOfThere(rows[1..], id, i - 1);
      var j :| 0 <= j < |rows| - 1 && rows[1..][j] == Tab(FirstOf(rows, id).value)
               && TextAt(rows[1..][j], "id") == Some(id);
      assert rows[j + 1] == rows[1..][j];
    }
  }

  lemma {:induction false} OnceHolds(given: seq<Value>, items: seq<Value>, v: Value)
    ensures v in Once(given, items) <==> v in given || v in items
  {
    if items != [] {
      OnceHolds(given, items[..|items| - 1], v);
      assert items == items[..|items| - 1] + [items[|items| - 1]];
    }
  }

  lemma {:induction false} ProvidedHolds(services: seq<Value>, v: Value)
    ensures v in Provided(services) <==>
              exists i :: 0 <= i < |services| && v in AsArray(Get(services[i], "provides"))
  {
    if services != [] {
      var rest := services[..|services| - 1];
      ProvidedHolds(rest, v);
      OnceHolds(Provided(rest), AsArray(Get(services[|services| - 1], "provides")), v);
      assert forall i | 0 <= i < |rest| :: rest[i] == services[i];
    }
  }

  /** Whether some service of the part provides `capability`. */
  ghost predicate AnyProvides(rows: seq<Value>, capability: string) {
    exists i :: 0 <= i < |rows| && Str(capability) in AsArray(Get(rows[i], "provides"))
  }

  lemma StandInKeeps(found: Table, services: seq<Value>, declared: seq<Value>)
    ensures Field(StandIn(found, services, declared), "id") == Field(found, "id")
    ensures Field(StandIn(found, services, declared), "provides") ==
              if Provided(services) == [] then Field(found, "provides")
              else Some(Array(Provided(services)))
  {
  }

  /** The service table an installed part's rules make sure of. */
  lemma FoundReady(w: World, one: Held) returns (found: Table, j: nat)
    requires Ready(w, one) && one.pin.stage == Some(Stage.Installed)
    ensures w.parse(one.copy).Some?
    ensures FirstOf(ServiceRows(w, one), one.pin.id) == Some(found)
    ensures j < |ServiceRows(w, one)| && ServiceRows(w, one)[j] == Tab(found)
    ensures AsStr(Field(found, "id")) == Some(one.pin.id)
  {
    hide Ready, FirstOf;
    var rows := ServiceRows(w, one);
    var i := ReplacingRow(w, one);
    FirstOfThere(rows, one.pin.id, i);
    found := FirstOf(rows, one.pin.id).value;
    j :| 0 <= j < |rows| && rows[j] == Tab(found) && TextAt(rows[j], "id") == Some(one.pin.id);
  }

  lemma ReplacingRow(w: World, one: Held) returns (i: nat)
    requires Ready(w, one) && one.pin.stage == Some(Stage.Installed)
    ensures i < |ServiceRows(w, one)| && TextAt(ServiceRows(w, one)[i], "id") == Some(one.pin.id)
  {
    hide ServiceRows, DeclaredIn;
    DeclaredRows(w, one);
    var rows := ServiceRows(w, one);
    var part := DeclaredIn(w, one.copy);
    var chosen :| chosen in part.services && chosen.id == one.pin.id && chosen.replacing == Some(one.pin.id);
    i :| 0 <= i < |rows| && part.services[i] == chosen;
    assert Or(TextAt(rows[i], "id"), "") == one.pin.id;
  }

  /** An installed part's stand-in is written, under its pin's id, providing what any of its services
      provides. */
  lemma StandingReady(w: World, one: Held, capability: string)
    requires Ready(w, one) && one.pin.stage == Some(Stage.Installed)
    ensures StandingIn(w, one).Ok?
    ensures AsStr(Field(StandingIn(w, one).value, "id")) == Some(one.pin.id)
    ensures Str(capability) in AsArray(Field(StandingIn(w, one).value, "provides"))
       <==> AnyProvides(ServiceRows(w, one), capability)
  {
    hide StandIn, Stacked, Provided, Unminted, FirstOf, Ready;
    var found, j := FoundReady(w, one);
    var rows := ServiceRows(w, one);
    var manifest := w.parse(one.copy).value;
    var declared := Unminted(Rows(manifest, "secret"));
    var written := StandIn(found, rows, declared);
    StandInKeeps(found, rows, declared);
    ReadyPin(w, one);
    StackedKeeps(one, manifest, written, "id");
    StackedKeeps(one, manifest, written, "provides");
    ProvidedHolds(rows, Str(capability));
    assert Get(rows[j], "provides") == Field(found, "provides");
  }

  lemma ReadyPin(w: World, one: Held)
    requires Ready(w, one)
    ensures one.pin.profile.Some? && one.pin.lastRelease.Some? && one.pin.stage.Some? && one.pin.id != ""
  {
  }

  // ------------------------------------------------------- what the rules make ready

  /** The rules make every held part ready. */
  lemma HeldReady(w: World, bundle: Bundle, copies: map<string, Copy>)
    requires Sound(w, bundle, copies) && bundle.schema == 2
    ensures forall one | one in HeldOf(bundle.plugin, copies) :: Ready(w, one)
  {
    var held := HeldOf(bundle.plugin, copies);
    forall i | 0 <= i < |held|
      ensures Ready(w, held[i])
    {
      var pin := bundle.plugin[i];
      assert pin in bundle.plugin;
      assert PinSound(w, pin);
      assert PinnedPartSound(w, pin, bundle, copies);
      assert CopySound(w, pin, copies);
      assert held[i].copy == copies[pin.id].manifest.value;
    }
  }

  // ------------------------------------------------------- the services in order

  /** The ids of the held parts at a stage, in bundle order. */
  ghost function IdsAt(held: seq<Held>, stage: Stage): seq<Option<string>> {
    if held == [] then []
    else
      var before := IdsAt(held[..|held| - 1], stage);
      var one := held[|held| - 1];
      if one.pin.stage == Some(stage) then before + [Some(one.pin.id)] else before
  }

  lemma IdsPush(rows: seq<Value>, row: Value)
    ensures Ids(rows + [row]) == Ids(rows) + [TextAt(row, "id")]
  {
  }

  lemma {:induction false} ProgressedReady(w: World, wiring: seq<Value>, held: seq<Held>)
    requires forall one | one in held :: Ready(w, one)
    ensures Progressed(w, wiring, held).problems == []
    ensures Ids(Progressed(w, wiring, held).services) == IdsAt(held, Stage.Assembled)
  {
    if held != [] {
      var rest, one := held[..|held| - 1], held[|held| - 1];
      assert one in held && forall h | h in rest :: h in held;
      ProgressedReady(w, wiring, rest);
      if one.pin.stage == Some(Stage.Assembled) {
        ServiceReady(w, one);
        IdsPush(Progressed(w, wiring, rest).services, Tab(Service(w, one).value.0));
      }
    }
  }

  lemma {:induction false} KeptReady(w: World, start: Keeping, held: seq<Held>)
    requires start.problems == []
    requires forall one | one in held :: Ready(w, one)
    ensures KeptSoFar(w, start, held).problems == []
    ensures Ids(KeptSoFar(w, start, held).services) == Ids(start.services) + IdsAt(held, Stage.Installed)
    ensures start.services <= KeptSoFar(w, start, held).services
    ensures |KeptSoFar(w, start, held).wiring| == |start.wiring|
  {
    hide StandingIn, Ready, Serviced;
    if held != [] {
      var rest, one := held[..|held| - 1], held[|held| - 1];
      assert one in held && forall h | h in rest :: h in held;
      KeptReady(w, start, rest);
      if one.pin.stage == Some(Stage.Installed) {
        StandingReady(w, one, "");
        IdsPush(KeptSoFar(w, start, rest).services, Tab(StandingIn(w, one).value));
        assert Ids(start.services) + (IdsAt(rest, Stage.Installed) + [Some(one.pin.id)])
            == (Ids(start.services) + IdsAt(rest, Stage.Installed)) + [Some(one.pin.id)];
      }
    }
  }

  lemma StackRows(bundle: Table, progress: Progress, version: string)
    ensures Rows(StackTable(bundle, progress, version), "wiring") == progress.wiring
    ensures Rows(StackTable(bundle, progress, version), "service") == progress.services
  {
    var tables := [("profile", Rows(bundle, "profile")), ("form", Rows(bundle, "form")),
                   ("removed", Rows(bundle, "removed")), ("wiring", progress.wiring),
                   ("service", progress.services)];
    PresentRows(tables, 3);
    PresentRows(tables, 4);
  }

  /** A table filled in under names of their own holds under each what it was given. */
  lemma {:induction false} PresentRows(tables: seq<(string, seq<Value>)>, i: nat)
    requires i < |tables|
    requires forall j, k | 0 <= j < k < |tables| :: tables[j].0 != tables[k].0
    ensures tables[i].0 in Present(tables) <==> tables[i].1 != []
    ensures Rows(Present(tables), tables[i].0) == tables[i].1
  {
    var rest, last := tables[..|tables| - 1], tables[|tables| - 1];
    assert forall j | 0 <= j < |rest| :: rest[j] == tables[j];
    if i < |rest| {
      PresentRows(rest, i);
    } else {
      PresentNot(rest, last.0);
    }
  }

  lemma {:induction false} PresentNot(tables: seq<(string, seq<Value>)>, name: string)
    requires forall j | 0 <= j < |tables| :: tables[j].0 != name
    ensures name !in Present(tables)
  {
    if tables != [] {
      var rest := tables[..|tables| - 1];
      assert forall j | 0 <= j < |rest| :: rest[j] == tables[j];
      PresentNot(rest, name);
    }
  }

  lemma KeptRows(stack: Table, wiring: seq<Value>, services: seq<Value>)
    requires |wiring| == |Rows(stack, "wiring")|
    requires |Rows(stack, "service")| <= |services|
    ensures var kept := stack + Present([("wiring", wiring), ("service", services)]);
            Rows(kept, "wiring") == wiring && Rows(kept, "service") == services
  {
    var tables := [("wiring", wiring), ("service", services)];
    PresentRows(tables, 0);
    PresentRows(tables, 1);
  }

  // ------------------------------------------------------- no id twice

  lemma {:induction false} PinsAscend(pins: seq<Pin>, i: nat, j: nat)
    requires PinsOrdered(pins)
    requires i < j < |pins|
    ensures Before(pins[i].id, pins[j].id)
  {
    assert Before(pins[j - 1].id, pins[j].id);
    if i < j - 1 {
      PinsAscend(pins, i, j - 1);
      BeforeTransitive(pins[i].id, pins[j - 1].id, pins[j].id);
    }
  }

  ghost predicate DistinctPins(held: seq<Held>) {
    forall i, j | 0 <= i < j < |held| :: held[i].pin.id != held[j].pin.id
  }

  lemma PinsDistinct(bundle: Bundle, copies: map<string, Copy>)
    requires PinsOrdered(bundle.plugin)
    ensures DistinctPins(HeldOf(bundle.plugin, copies))
  {
    PinsApart(bundle.plugin);
  }

  lemma {:induction false} IdsAtHold(held: seq<Held>, stage: Stage, id: Option<string>)
    ensures id in IdsAt(held, stage) <==>
              exists i :: 0 <= i < |held| && held[i].pin.stage == Some(stage) && id == Some(held[i].pin.id)
  {
    if held != [] {
      var rest := held[..|held| - 1];
      IdsAtHold(rest, stage, id);
      assert forall i | 0 <= i < |rest| :: rest[i] == held[i];
    }
  }

  ghost predicate NoneTwice(ids: seq<Option<string>>) {
    forall i, j | 0 <= i < j < |ids| :: ids[i] != ids[j]
  }

  lemma {:induction false} IdsAtOnce(held: seq<Held>, stage: Stage)
    requires DistinctPins(held)
    ensures NoneTwice(IdsAt(held, stage))
  {
    if held != [] {
      var rest, one := held[..|held| - 1], held[|held| - 1];
      assert forall i | 0 <= i < |rest| :: rest[i] == held[i];
      IdsAtOnce(rest, stage);
      IdsAtHold(rest, stage, Some(one.pin.id));
    }
  }

  ghost predicate PinnedId(held: seq<Held>, id: Option<string>) {
    exists i :: 0 <= i < |held| && id == Some(held[i].pin.id)
  }

  /** The assembled parts' ids and then the installed parts' are every pin's. */
  lemma StackIdsPinned(held: seq<Held>, id: Option<string>)
    requires forall one | one in held :: one.pin.stage.Some?
    ensures id in IdsAt(held, Stage.Assembled) + IdsAt(held, Stage.Installed) <==> PinnedId(held, id)
  {
    IdsAtHold(held, Stage.Assembled, id);
    IdsAtHold(held, Stage.Installed, id);
    if PinnedId(held, id) {
      var i :| 0 <= i < |held| && id == Some(held[i].pin.id);
      assert held[i] in held;
      match held[i].pin.stage.value {
        case Assembled =>
        case Installed =>
      }
    }
  }

  /** And none of them is there twice. */
  lemma StackIdsOnce(held: seq<Held>)
    requires DistinctPins(held)
    ensures NoneTwice(IdsAt(held, Stage.Assembled) + IdsAt(held, Stage.Installed))
  {
    var a, b := IdsAt(held, Stage.Assembled), IdsAt(held, Stage.Installed);
    IdsAtOnce(held, Stage.Assembled);
    IdsAtOnce(held, Stage.Installed);
    forall x | x in a && x in b
      ensures false
    {
      IdsAtHold(held, Stage.Assembled, x);
      IdsAtHold(held, Stage.Installed, x);
    }
    forall i, j | 0 <= i < j < |a + b|
      ensures (a + b)[i] != (a + b)[j]
    {
      if i < |a| && j >= |a| {
        assert a[i] in a && b[j - |a|] in b;
      }
    }
  }

  // ------------------------------------------------------- the stack a sound bundle writes

  /** The table a sound bundle's stack is, before it is printed. */
  ghost function Final(w: World, table: Table, held: seq<Held>, version: string): Table {
    var progress := Progressed(w, Rows(table, "wiring"), held);
    var kept := KeptSoFar(w, Keeping(progress.wiring, progress.services, []), held);
    StackTable(table, progress, version) + Present([("wiring", kept.wiring), ("service", kept.services)])
  }

  lemma Composing(w: World, text: string, table: Table, held: seq<Held>, version: string)
    requires Lawful(w) && w.parse(text) == Some(table)
    requires forall one | one in held :: Ready(w, one)
    ensures Composed(w, text, held, version) == Ok(w.printed(Final(w, table, held, version)))
    ensures var progress := Progressed(w, Rows(table, "wiring"), held);
            var kept := KeptSoFar(w, Keeping(progress.wiring, progress.services, []), held);
            && Rows(Final(w, table, held, version), "wiring") == kept.wiring
            && Rows(Final(w, table, held, version), "service") == kept.services
            && |kept.wiring| == |progress.wiring|
            && Ids(kept.services) == IdsAt(held, Stage.Assembled) + IdsAt(held, Stage.Installed)
  {
    var progress := Progressed(w, Rows(table, "wiring"), held);
    var start := Keeping(progress.wiring, progress.services, []);
    var stack := StackTable(table, progress, version);
    ProgressedReady(w, Rows(table, "wiring"), held);
    StackRows(table, progress, version);
    KeptReady(w, start, held);
    var kept := KeptSoFar(w, start, held);
    KeptRows(stack, kept.wiring, kept.services);
  }

  /** Where the rules find nothing broken in a schema 2 bundle, assembling and keeping it both
      succeed, and the stack written has exactly one service for each pin: the assembled parts' ids
      in bundle order, then the installed parts', none twice. */
  lemma SilenceMeansAStack(w: World, text: string, table: Table, bundle: Bundle, copies: map<string, Copy>,
                           version: string)
    requires Lawful(w) && w.parse(text) == Some(table)
    requires bundle.schema == 2 && Sound(w, bundle, copies)
    ensures var held := HeldOf(bundle.plugin, copies);
            var written := Composed(w, text, held, version);
            && written.Ok?
            && w.parse(written.value).Some?
            && var ids := Ids(Rows(w.parse(written.value).value, "service"));
               && ids == IdsAt(held, Stage.Assembled) + IdsAt(held, Stage.Installed)
               && NoneTwice(ids)
               && forall id :: id in ids <==> PinnedId(held, id)
  {
    var held := HeldOf(bundle.plugin, copies);
    HeldReady(w, bundle, copies);
    Composing(w, text, table, held, version);
    PinsDistinct(bundle, copies);
    StackIdsOnce(held);
    assert forall one | one in held :: Ready(w, one);
    forall id
      ensures id in IdsAt(held, Stage.Assembled) + IdsAt(held, Stage.Installed) <==> PinnedId(held, id)
    {
      StackIdsPinned(held, id);
    }
  }

  /** `read`, once the files are: hands the parts on only where no rule is broken. */
  method Read(w: World, bundle: Bundle, copies: map<string, Copy>) returns (r: Result<seq<Held>, seq<Fault>>)
    ensures r.Ok? <==> Sound(w, bundle, copies)
    ensures r.Ok? ==> r.value == HeldOf(bundle.plugin, copies)
    ensures r.Err? ==> r.error != []
  {
    var broken := Broken(w, bundle, copies);
    if broken != [] {
      return Err(broken);
    }
    PinsApart(bundle.plugin);
    var held := Handed(bundle, copies);
    r := Ok(held);
  }

  lemma PinsApart(pins: seq<Pin>)
    requires PinsOrdered(pins)
    ensures forall i, j | 0 <= i < j < |pins| :: pins[i].id != pins[j].id
  {
    forall i, j | 0 <= i < j < |pins|
      ensures pins[i].id != pins[j].id
    {
      PinsAscend(pins, i, j);
      BeforeStrict(pins[i].id);
    }
  }

  /** Why a build writes no stack: rules broken, parts that cannot be written, or a stack that is
      written and then not read back as a manifest. */
  datatype Unbuilt = Refused(broken: seq<Fault>) | Unassembled(problems: seq<Problem>) | Unreadable(stack: string)

  /** Whether a stack's text has exactly one service for each pin held. */
  ghost predicate OneForEach(w: World, stack: string, held: seq<Held>) {
    && w.parse(stack).Some?
    && var ids := Ids(Rows(w.parse(stack).value, "service"));
       NoneTwice(ids) && forall id :: id in ids <==> PinnedId(held, id)
  }

  /** The path a build takes: a bundle is read, assembled and kept, and the stack that comes of it is
      read as a manifest by `readable`. At schema 2 a broken rule is all that keeps a stack from being
      written, and being read back all that then keeps it from being built. */
  method Built(w: World, readable: string -> bool, text: string, table: Table, bundle: Bundle,
               copies: map<string, Copy>, version: string)
    returns (r: Result<string, Unbuilt>)
    requires Lawful(w) && w.parse(text) == Some(table)
    ensures r.Err? && r.error.Refused? <==> !Sound(w, bundle, copies)
    ensures bundle.schema == 2 ==> !(r.Err? && r.error.Unassembled?)
    ensures bundle.schema == 2 && r.Ok? ==> OneForEach(w, r.value, HeldOf(bundle.plugin, copies))
    ensures bundle.schema == 2 && r.Err? && r.error.Unreadable? ==>
              OneForEach(w, r.error.stack, HeldOf(bundle.plugin, copies))
    ensures r.Ok? ==> readable(r.value)
    ensures r.Err? && r.error.Unreadable? ==> !readable(r.error.stack)
  {
    hide Sound, Lawful, NoneTwice, PinnedId, IdsAt, AssembledText, KeptText;
    var read := Read(w, bundle, copies);
    if read.Err? {
      return Err(Refused(read.error));
    }
    if bundle.schema == 2 {
      SilenceMeansAStack(w, text, table, bundle, copies, version);
    }
    var assembled := Assemble(w, text, read.value, version);
    if assembled.Err? {
      return Err(Unassembled(assembled.error));
    }
    var kept := Keep(w, assembled.value, read.value);
    if kept.Err? {
      return Err(Unassembled(kept.error));
    }
    if !readable(kept.value) {
      return Err(Unreadable(kept.value));
    }
    r := Ok(kept.value);
  }
}
