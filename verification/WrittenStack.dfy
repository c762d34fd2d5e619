/** The stack a sound bundle is written as, read back: each service field by field, the tables beside
    them, and every row of wiring that is not the bundle's own. */
module WrittenStack {
  import opened Outcomes
  import opened Toml
  import opened Bundles
  import opened BundleChecker
  import opened Assembly
  import opened KeptParts
  import opened BundleSoundness
  import opened BundleFillers
  import opened BundleProviding
  import opened StackFields
  import opened StandInFields

  /** Whether `stack` is what is read back of the text a sound schema 2 bundle is written as. */
  ghost predicate ReadBack(w: World, text: string, table: Table, bundle: Bundle, copies: map<string, Copy>,
                           version: string, stack: Table) {
    && Lawful(w) && w.parse(text) == Some(table)
    && bundle.schema == 2 && Sound(w, bundle, copies)
    && var written := Composed(w, text, HeldOf(bundle.plugin, copies), version);
       written.Ok? && w.parse(written.value) == Some(stack)
  }

  lemma ReadBackFinal(w: World, text: string, table: Table, bundle: Bundle, copies: map<string, Copy>,
                      version: string, stack: Table)
    requires ReadBack(w, text, table, bundle, copies, version, stack)
    ensures var held := HeldOf(bundle.plugin, copies);
            && Lawful(w) && w.parse(text) == Some(table)
            && stack == Final(w, table, held, version)
            && (forall one | one in held :: Ready(w, one))
            && NoneTwice(Ids(Rows(stack, "service")))
  {
    hide Sound, Composed, Final, Ready;
    HeldReady(w, bundle, copies);
    Composing(w, text, table, HeldOf(bundle.plugin, copies), version);
    SilenceMeansAStack(w, text, table, bundle, copies, version);
  }

  /** The rows of a table under one id are one row, where no id is there twice. */
  lemma OneOfId(rows: seq<Value>, a: Value, b: Value)
    requires NoneTwice(Ids(rows)) && a in rows && b in rows
    requires TextAt(a, "id") == TextAt(b, "id")
    ensures a == b
  {
    var i :| 0 <= i < |rows| && rows[i] == a;
    var j :| 0 <= j < |rows| && rows[j] == b;
    assert Ids(rows)[i] == Ids(rows)[j];
  }

  /** The service of the stack under a pin's id, whatever its key: an assembled part's is its one
      service, an installed part's the service its copy has under that id, each with the fields its
      pin, its plugin, its wiring and its secrets give it. */
  lemma EveryField(w: World, text: string, table: Table, bundle: Bundle, copies: map<string, Copy>,
                   version: string, stack: Table, i: nat, service: Value, key: string) returns (j: nat)
    requires ReadBack(w, text, table, bundle, copies, version, stack)
    requires i < |bundle.plugin|
    requires service in Rows(stack, "service") && TextAt(service, "id") == Some(bundle.plugin[i].id)
    ensures var one := HeldOf(bundle.plugin, copies)[i];
            && service.Tab? && w.parse(one.copy).Some?
            && var manifest := w.parse(one.copy).value;
               var rows := Rows(manifest, "service");
               && j < |rows| && rows[j].Tab?
               && (one.pin.stage == Some(Stage.Assembled) ==>
                     |rows| == 1 && AssembledField(one.pin, manifest, one.pin.id, rows[j].table, service.table, key))
               && (one.pin.stage == Some(Stage.Installed) ==>
                     && FirstNamed(rows, one.pin.id, j)
                     && StandInField(one.pin, manifest, rows[j].table, service.table, key))
  {
    hide *;
    var held := HeldOf(bundle.plugin, copies);
    var one := held[i];
    ReadBackFinal(w, text, table, bundle, copies, version, stack);
    assert one in held;
    ReadyPin(w, one);
    assert one.pin == bundle.plugin[i];
    j := ServiceIsPins(w, text, table, held, version, i, service, key);
  }

  lemma ServiceIsPins(w: World, text: string, table: Table, held: seq<Held>, version: string, i: nat,
                      service: Value, key: string) returns (j: nat)
    requires Lawful(w) && w.parse(text) == Some(table)
    requires forall one | one in held :: Ready(w, one)
    requires var rows := Rows(Final(w, table, held, version), "service"); NoneTwice(Ids(rows)) && service in rows
    requires i < |held| && TextAt(service, "id") == Some(held[i].pin.id)
    ensures var one := held[i];
            && service.Tab? && w.parse(one.copy).Some?
            && var manifest := w.parse(one.copy).value;
               var rows := Rows(manifest, "service");
               && j < |rows| && rows[j].Tab?
               && (one.pin.stage == Some(Stage.Assembled) ==>
                     |rows| == 1 && AssembledField(one.pin, manifest, one.pin.id, rows[j].table, service.table, key))
               && (one.pin.stage == Some(Stage.Installed) ==>
                     && FirstNamed(rows, one.pin.id, j)
                     && StandInField(one.pin, manifest, rows[j].table, service.table, key))
  {
    hide Service, StandingIn, Final, Ready, AssembledField, StandInField, FirstNamed, NoneTwice, Serviced;
    var one := held[i];
    assert one in held;
    ReadyPin(w, one);
    Composing(w, text, table, held, version);
    var progress := Progressed(w, Rows(table, "wiring"), held);
    var start := Keeping(progress.wiring, progress.services, []);
    ProgressedReady(w, Rows(table, "wiring"), held);
    KeptReady(w, start, held);
    var rows := Rows(Final(w, table, held, version), "service");
    match one.pin.stage.value {
      case Assembled =>
        ServiceThere(w, Rows(table, "wiring"), held, i);
        ServiceReady(w, one);
        var own := Tab(Service(w, one).value.0);
        var k :| 0 <= k < |progress.services| && progress.services[k] == own;
        assert KeptSoFar(w, start, held).services[k] == own;
        OneOfId(rows, service, own);
        AssembledFields(w, one, "id");
        AssembledFields(w, one, key);
        AssembledId(w, one);
        j := 0;
      case Installed =>
        StandingThere(w, start, held, i);
        StandingReady(w, one, "");
        OneOfId(rows, service, Tab(StandingIn(w, one).value));
        j := StandInFieldsHold(w, one, key);
    }
  }

  /** The id an assembled service is written under is the one its copy spells. */
  lemma AssembledId(w: World, one: Held)
    requires Service(w, one).Ok?
    requires AsStr(Field(Service(w, one).value.0, "id")) == Some(one.pin.id)
    ensures TextAt(Rows(w.parse(one.copy).value, "service")[0], "id") == Some(one.pin.id)
  {
    hide Service, DashboardSaid;
    AssembledFields(w, one, "id");
  }

  // ------------------------------------------------------- tables

  /** What a table of the stack is where the bundle declares these rows of it. */
  function Listed(rows: seq<Value>): Option<Value> {
    if rows == [] then None else Some(Array(rows))
  }

  /** Beside its services and its wiring the stack holds the bundle's profiles, forms and removals as
      they are, the schema and the version given, and nothing else. */
  lemma TablesCarried(w: World, text: string, table: Table, bundle: Bundle, copies: map<string, Copy>,
                      version: string, stack: Table)
    requires ReadBack(w, text, table, bundle, copies, version, stack)
    ensures Field(stack, "schema_version") == Some(Other("1"))
    ensures Field(stack, "stack_version") == Some(Str(version)) == Field(stack, "min_cli_version")
    ensures Field(stack, "profile") == Listed(Rows(table, "profile"))
    ensures Field(stack, "form") == Listed(Rows(table, "form"))
    ensures Field(stack, "removed") == Listed(Rows(table, "removed"))
    ensures stack.Keys <= {"schema_version", "stack_version", "min_cli_version", "profile", "form", "removed",
                           "wiring", "service"}
  {
    hide ReadBack, Ready, Progressed, KeptSoFar;
    ReadBackFinal(w, text, table, bundle, copies, version, stack);
    var held := HeldOf(bundle.plugin, copies);
    var progress := Progressed(w, Rows(table, "wiring"), held);
    var kept := KeptSoFar(w, Keeping(progress.wiring, progress.services, []), held);
    FiveTables(table, progress, version);
    TwoTables(kept.wiring, kept.services);
    hide Rows, StackTable, Present;
  }

  lemma TwoTables(wiring: seq<Value>, services: seq<Value>)
    ensures Present([("wiring", wiring), ("service", services)]).Keys <= {"wiring", "service"}
  {
    var tables := [("wiring", wiring), ("service", services)];
    forall name | name in Present(tables)
      ensures name in {"wiring", "service"}
    {
      if name != "wiring" && name != "service" {
        PresentNot(tables, name);
      }
    }
  }

  lemma FiveTables(bundle: Table, progress: Progress, version: string)
    ensures var stack := StackTable(bundle, progress, version);
            && Field(stack, "schema_version") == Some(Other("1"))
            && Field(stack, "stack_version") == Some(Str(version)) == Field(stack, "min_cli_version")
            && Field(stack, "profile") == Listed(Rows(bundle, "profile"))
            && Field(stack, "form") == Listed(Rows(bundle, "form"))
            && Field(stack, "removed") == Listed(Rows(bundle, "removed"))
            && stack.Keys <= {"schema_version", "stack_version", "min_cli_version", "profile", "form", "removed",
                              "wiring", "service"}
  {
    var names := ["profile", "form", "removed", "wiring", "service"];
    var tables := [("profile", Rows(bundle, "profile")), ("form", Rows(bundle, "form")),
                   ("removed", Rows(bundle, "removed")), ("wiring", progress.wiring),
                   ("service", progress.services)];
    var present := Present(tables);
    PresentField(tables, 0);
    PresentField(tables, 1);
    PresentField(tables, 2);
    forall name | name !in names
      ensures name !in present
    {
      PresentNot(tables, name);
    }
    assert names[0] == "profile" && names[1] == "form" && names[2] == "removed" && names[3] == "wiring"
           && names[4] == "service";
    assert "schema_version" !in names && "stack_version" !in names && "min_cli_version" !in names;
    hide Present, Rows;
  }

  lemma {:induction false} PresentField(tables: seq<(string, seq<Value>)>, i: nat)
    requires i < |tables|
    requires forall j, k | 0 <= j < k < |tables| :: tables[j].0 != tables[k].0
    ensures Field(Present(tables), tables[i].0) == Listed(tables[i].1)
  {
    var rest, last := tables[..|tables| - 1], tables[|tables| - 1];
    assert forall j | 0 <= j < |rest| :: rest[j] == tables[j];
    if i < |rest| {
      PresentField(rest, i);
    } else {
      PresentNot(rest, last.0);
    }
  }

  // ------------------------------------------------------- wiring

  /** Whether a row of the stack is the ask a manifest makes of a capability for the service `id`. */
  ghost predicate AskedAs(ask: Value, id: string, row: Value) {
    && Concerns(ask, id) && TextAt(ask, "capability").Some?
    && row.Tab? && row.table.Keys <= {"by", "asks", "each"}
    && Field(row.table, "by") == Some(Str(id))
    && Field(row.table, "asks") == Get(ask, "capability")
    && Field(row.table, "each") == if Get(ask, "each") == Some(Bool(true)) then Some(Bool(true)) else None
  }

  lemma {:induction false} AskRowsFrom(rows: seq<Value>, id: string)
    ensures forall row | row in AskRows(rows, id) :: exists ask :: ask in rows && AskedAs(ask, id, row)
  {
    if rows != [] {
      var init, last := rows[..|rows| - 1], rows[|rows| - 1];
      assert rows == init + [last];
      AskRowsFrom(init, id);
      forall row | row in AskRows(rows, id)
        ensures exists ask :: ask in rows && AskedAs(ask, id, row)
      {
        if row in AskRows(init, id) {
          var ask :| ask in init && AskedAs(ask, id, row);
          assert ask in rows;
        } else {
          assert AskedAs(last, id, row);
        }
      }
    }
  }

  /** Keeping the parts leaves a row that chooses no filler as it is. */
  lemma {:induction false} ChoicelessKept(w: World, start: Keeping, held: seq<Held>, k: nat)
    requires k < |start.wiring| && TextAt(start.wiring[k], "filled_by").None?
    ensures k < |KeptSoFar(w, start, held).wiring|
    ensures KeptSoFar(w, start, held).wiring[k] == start.wiring[k]
  {
    hide StandingIn, Serviced;
    if held != [] {
      ChoicelessKept(w, start, held[..|held| - 1], k);
    }
  }

  /** Every row of the stack's wiring past the bundle's own is an ask of some assembled part's
      manifest, made by its service, of the capability it names, of each filler where it says so. */
  lemma EveryRowAsked(w: World, text: string, table: Table, bundle: Bundle, copies: map<string, Copy>,
                      version: string, stack: Table, k: nat) returns (one: Held, ask: Value)
    requires ReadBack(w, text, table, bundle, copies, version, stack)
    requires |Rows(table, "wiring")| <= k < |Rows(stack, "wiring")|
    ensures one in HeldOf(bundle.plugin, copies) && one.pin.stage == Some(Stage.Assembled)
    ensures w.parse(one.copy).Some? && ask in Rows(w.parse(one.copy).value, "ask")
    ensures AskedAs(ask, one.pin.id, Rows(stack, "wiring")[k])
  {
    hide *;
    ReadBackFinal(w, text, table, bundle, copies, version, stack);
    one, ask := RowAsked(w, text, table, HeldOf(bundle.plugin, copies), version, k);
  }

  lemma RowAsked(w: World, text: string, table: Table, held: seq<Held>, version: string, k: nat)
    returns (one: Held, ask: Value)
    requires Lawful(w) && w.parse(text) == Some(table)
    requires forall one | one in held :: Ready(w, one)
    requires |Rows(table, "wiring")| <= k < |Rows(Final(w, table, held, version), "wiring")|
    ensures one in held && one.pin.stage == Some(Stage.Assembled)
    ensures w.parse(one.copy).Some? && ask in Rows(w.parse(one.copy).value, "ask")
    ensures AskedAs(ask, one.pin.id, Rows(Final(w, table, held, version), "wiring")[k])
  {
    hide Final, Ready, Service, AskedAs, Covered, NoneRepeated, Lawful;
    var own := Rows(table, "wiring");
    var progress := Progressed(w, own, held);
    var start := Keeping(progress.wiring, progress.services, []);
    Composing(w, text, table, held, version);
    AsksWired(w, own, held);
    assert Makes(w, held, progress.wiring[k]);
    one :| one in held && Written(w, one) && progress.wiring[k] in Service(w, one).value.1;
    ServiceAsks(w, one);
    ServiceReady(w, one);
    ServiceParsed(w, one);
    var rows := Rows(w.parse(one.copy).value, "ask");
    AskRowsFrom(rows, one.pin.id);
    ask :| ask in rows && AskedAs(ask, one.pin.id, progress.wiring[k]);
    ChoicelessKept(w, start, held, k);
  }

  lemma ServiceParsed(w: World, one: Held)
    requires Service(w, one).Ok?
    ensures w.parse(one.copy).Some?
  {
  }
}
