/** Every field of every service in a written stack, and every table beside them, read off what the
    bundle and the copies say. */
module StackFields {
  import opened Outcomes
  import opened Toml
  import opened Bundles
  import opened Assembly
  import opened KeptParts

  // ------------------------------------------------------- fields and their sources

  /** Whether a row of a manifest is about the service `id`, or about no one service. */
  predicate Concerns(row: Value, id: string) {
    TextAt(row, "service").None? || TextAt(row, "service") == Some(id)
  }

  /** Whether `dashboard` holds what a row says of one, and nothing else. */
  predicate Shown(row: Value, dashboard: Table) {
    && Field(dashboard, "group") == Get(row, "dashboard_group")
    && Field(dashboard, "description") == Get(row, "dashboard_description")
    && Field(dashboard, "icon") == Get(row, "dashboard_icon")
    && Field(dashboard, "hidden") == Get(row, "dashboard_hidden")
    && dashboard.Keys <= {"group", "description", "icon", "hidden"}
  }

  /** Whether `i` is the first of `rows` about the service. */
  predicate FirstConcern(rows: seq<Value>, id: string, i: nat) {
    i < |rows| && Concerns(rows[i], id) && forall j | 0 <= j < i :: !Concerns(rows[j], id)
  }

  /** A dashboard is written where the first row about the service says anything of one, and is left
      as the service has it otherwise. */
  ghost predicate DashboardSaid(rows: seq<Value>, id: string, given: Option<Value>, written: Option<Value>) {
    && (forall i: nat | FirstConcern(rows, id, i) ::
          exists dashboard :: Shown(rows[i], dashboard)
                              && written == if dashboard == map[] then given else Some(Tab(dashboard)))
    && ((forall i | 0 <= i < |rows| :: !Concerns(rows[i], id)) ==> written == given)
  }

  /** What the plugin's own table says under `name`. */
  function OfPlugin(manifest: Table, name: string): Option<Value> {
    match Field(manifest, "plugin")
    case Some(Tab(plugin)) => Field(plugin, name)
    case _ => None
  }

  function Either(first: Option<Value>, second: Option<Value>): Option<Value> {
    if first.Some? then first else second
  }

  /** What `written` holds under `key`, for the service table `given` of a part with this pin and
      this manifest. */
  ghost predicate FieldOf(pin: Pin, manifest: Table, id: string, given: Table, written: Table, key: string) {
    match key
    case "replaces" => Field(written, key).None?
    case "profile" => pin.profile.Some? && Field(written, key) == Some(Str(pin.profile.value))
    case "last_release" => pin.lastRelease.Some? && Field(written, key) == Some(Str(pin.lastRelease.value))
    case "describes" => Field(written, key) == Either(OfPlugin(manifest, "description"), Field(given, key))
    case "without_it" => Field(written, key) == Either(OfPlugin(manifest, "without_it"), Field(given, key))
    case "upstream" => Field(written, key) == Either(OfPlugin(manifest, "upstream"), Field(given, key))
    case "license" => Field(written, key) == Either(OfPlugin(manifest, "license"), Field(given, key))
    case "dashboard" => DashboardSaid(Rows(manifest, "wiring"), id, Field(given, key), Field(written, key))
    case _ => Field(written, key) == Field(given, key)
  }

  lemma {:induction false} RenamedField(from: Table, names: seq<(string, string)>, key: string)
    requires forall i, j | 0 <= i < j < |names| :: names[i].1 != names[j].1
    ensures forall i | 0 <= i < |names| && names[i].1 == key ::
              Field(Renamed(from, names), key) == Field(from, names[i].0)
    ensures (forall i | 0 <= i < |names| :: names[i].1 != key) ==> Field(Renamed(from, names), key).None?
  {
    if names != [] {
      var rest := names[..|names| - 1];
      assert forall i | 0 <= i < |rest| :: rest[i] == names[i];
      RenamedField(from, rest, key);
    }
  }

  /** What is taken from the plugin's table, name by name. */
  lemma FromPlugin(plugin: Table, key: string)
    ensures Field(Renamed(plugin, FROM_PLUGIN), key)
            == match key
               case "describes" => Field(plugin, "description")
               case "without_it" => Field(plugin, "without_it")
               case "upstream" => Field(plugin, "upstream")
               case "license" => Field(plugin, "license")
               case _ => None
  {
    assert FROM_PLUGIN[0].1[0] == 'd' && FROM_PLUGIN[1].1[0] == 'w' && FROM_PLUGIN[2].1[0] == 'u'
           && FROM_PLUGIN[3].1[0] == 'l';
    RenamedField(plugin, FROM_PLUGIN, key);
    assert FROM_PLUGIN[0] == ("description", "describes") && FROM_PLUGIN[1] == ("without_it", "without_it");
    assert FROM_PLUGIN[2] == ("upstream", "upstream") && FROM_PLUGIN[3] == ("license", "license");
  }

  lemma FromRow(row: Value)
    ensures Shown(row, Renamed(Or(AsTable(Some(row)), map[]), DASHBOARD))
  {
    var from := Or(AsTable(Some(row)), map[]);
    var shown := Renamed(from, DASHBOARD);
    assert DASHBOARD[0].1[0] == 'g' && DASHBOARD[1].1[0] == 'd' && DASHBOARD[2].1[0] == 'i' && DASHBOARD[3].1[0] == 'h';
    RenamedField(from, DASHBOARD, "group");
    RenamedField(from, DASHBOARD, "description");
    RenamedField(from, DASHBOARD, "icon");
    RenamedField(from, DASHBOARD, "hidden");
    assert DASHBOARD[0] == ("dashboard_group", "group") && DASHBOARD[1] == ("dashboard_description", "description");
    assert DASHBOARD[2] == ("dashboard_icon", "icon") && DASHBOARD[3] == ("dashboard_hidden", "hidden");
    forall key | key in shown
      ensures key in {"group", "description", "icon", "hidden"}
    {
      RenamedField(from, DASHBOARD, key);
    }
  }

  lemma {:induction false} FirstRow(rows: seq<Value>, id: string)
    ensures FirstAbout(rows, id).None? <==> forall i | 0 <= i < |rows| :: !Concerns(rows[i], id)
    ensures forall i: nat | FirstConcern(rows, id, i) :: FirstAbout(rows, id) == Some(rows[i])
  {
    assert rows != [] ==> (Concerns(rows[0], id) <==> About(rows[0], id));
    hide Concerns, About;
    if rows != [] {
      FirstRow(rows[1..], id);
      assert forall i | 0 < i < |rows| :: rows[i] == rows[1..][i - 1];
      forall i: nat | FirstConcern(rows, id, i)
        ensures FirstAbout(rows, id) == Some(rows[i])
      {
        if i > 0 {
          assert FirstConcern(rows[1..], id, i - 1);
        }
      }
    }
  }

  lemma DashboardHolds(manifest: Table, id: string, given: Option<Value>)
    ensures var written := if Dashboard(manifest, id).Some? then Some(Tab(Dashboard(manifest, id).value)) else given;
            DashboardSaid(Rows(manifest, "wiring"), id, given, written)
  {
    var rows := Rows(manifest, "wiring");
    FirstRow(rows, id);
    if FirstAbout(rows, id).Some? {
      FromRow(FirstAbout(rows, id).value);
    }
    hide Shown, Renamed, Concerns;
  }

  /** What a service says once its pin and its plugin's table have spoken, under every key but its
      dashboard's. */
  lemma SaidFields(pin: Pin, manifest: Table, id: string, given: Table, key: string)
    requires pin.profile.Some? && pin.lastRelease.Some?
    ensures var pinned := (given - {"replaces"})["profile" := Str(pin.profile.value)]
                                                ["last_release" := Str(pin.lastRelease.value)];
            var plugin := AsTable(Field(manifest, "plugin"));
            var said := if plugin.Some? then pinned + Renamed(plugin.value, FROM_PLUGIN) else pinned;
            && (key != "dashboard" ==> FieldOf(pin, manifest, id, given, said, key))
            && Field(said, "dashboard") == Field(given, "dashboard")
  {
    var plugin := AsTable(Field(manifest, "plugin"));
    if plugin.Some? {
      FromPlugin(plugin.value, key);
      FromPlugin(plugin.value, "dashboard");
    }
    hide Renamed, DashboardSaid, Rows;
  }

  /** Every field of what stacking makes of a service table. */
  lemma StackedFields(one: Held, manifest: Table, given: Table, key: string)
    requires Stacked(one, manifest, given).Ok?
    ensures var written := Stacked(one, manifest, given).value.0;
            var id := AsStr(Field(given, "id"));
            && id.Some?
            && one.pin.profile.Some? && one.pin.lastRelease.Some?
            && FieldOf(one.pin, manifest, id.value, given, written, key)
  {
    var id := AsStr(Field(given - {"replaces"}, "id")).value;
    SaidFields(one.pin, manifest, id, given, key);
    DashboardHolds(manifest, id, Field(given, "dashboard"));
    hide Renamed, Dashboard, DashboardSaid, AskRows, Rows;
    var pinned := (given - {"replaces"})["profile" := Str(one.pin.profile.value)]
                                        ["last_release" := Str(one.pin.lastRelease.value)];
    var plugin := AsTable(Field(manifest, "plugin"));
    var said := if plugin.Some? then pinned + Renamed(plugin.value, FROM_PLUGIN) else pinned;
    var dashboard := Dashboard(manifest, id);
    var written := if dashboard.Some? then said["dashboard" := Tab(dashboard.value)] else said;
    assert Stacked(one, manifest, given).value.0 == written;
    if key != "dashboard" {
      assert Field(written, key) == Field(said, key);
      CarriedOver(one.pin, manifest, id, given, said, written, key);
    } else {
      assert Field(written, key) == if dashboard.Some? then Some(Tab(dashboard.value)) else Field(given, key);
    }
  }

  // ------------------------------------------------------- an assembled part

  /** What a service written for an assembled part holds under `key`: its claims and its secrets are
      the manifest's own tables, where it has them. */
  ghost predicate AssembledField(pin: Pin, manifest: Table, id: string, given: Table, written: Table, key: string) {
    if key in {"claim", "secret"} && key in manifest then Field(written, key) == Some(manifest[key])
    else FieldOf(pin, manifest, id, given, written, key)
  }

  /** An assembled part is written exactly where its copy parses and has one service, a table with an
      id, and its pin says under which profile and of which release; and every field of what is
      written is then accounted for. */
  lemma AssembledFields(w: World, one: Held, key: string)
    ensures Service(w, one).Ok? <==>
              && w.parse(one.copy).Some?
              && var rows := Rows(w.parse(one.copy).value, "service");
                 |rows| == 1 && rows[0].Tab? && TextAt(rows[0], "id").Some?
                 && one.pin.profile.Some? && one.pin.lastRelease.Some?
    ensures Service(w, one).Ok? ==>
              var manifest := w.parse(one.copy).value;
              var given := Rows(manifest, "service")[0].table;
              AssembledField(one.pin, manifest, given["id"].text, given, Service(w, one).value.0, key)
  {
    hide FieldOf;
    if w.parse(one.copy).Some? {
      var manifest := w.parse(one.copy).value;
      var rows := Rows(manifest, "service");
      if |rows| == 1 && rows[0].Tab? && Stacked(one, manifest, rows[0].table).Ok? {
        StackedFields(one, manifest, rows[0].table, key);
        CarriedField(manifest, key);
        CarriedOver(one.pin, manifest, rows[0].table["id"].text, rows[0].table,
                    Stacked(one, manifest, rows[0].table).value.0, Service(w, one).value.0, key);
      }
    }
  }

  lemma CarriedField(manifest: Table, key: string)
    ensures Field(AsWritten(manifest, FROM_MANIFEST), key)
            == if key == "claim" || key == "secret" then Field(manifest, key) else None
  {
    assert FROM_MANIFEST[..1] == ["claim"] && ["claim"][..0] == [];
    assert AsWritten(manifest, ["claim"]) == if "claim" in manifest then map["claim" := manifest["claim"]] else map[];
  }

  /** A field written as before is accounted for as before. */
  lemma CarriedOver(pin: Pin, manifest: Table, id: string, given: Table, before: Table, after: Table, key: string)
    requires FieldOf(pin, manifest, id, given, before, key)
    ensures Field(after, key) == Field(before, key) ==> FieldOf(pin, manifest, id, given, after, key)
  {
    hide DashboardSaid;
  }

  /** Why a part is not written: the first of these that is so. */
  lemma ServiceRefused(w: World, one: Held)
    requires Service(w, one).Err?
    ensures Service(w, one).error
            == if w.parse(one.copy).None? then Unparsed
               else
                 var rows := Rows(w.parse(one.copy).value, "service");
                 if |rows| != 1 then NotOne(|rows|)
                 else if !rows[0].Tab? then NotATable
                 else if TextAt(rows[0], "id").None? then NoId
                 else if one.pin.profile.None? then NoField("profile")
                 else NoField("last_release")
  {
    hide Renamed, AskRows, Dashboard;
  }

  /** Each assembled part that cannot be written is a problem, under its pin's id, and nothing else is. */
  lemma {:induction false} ProblemsMean(w: World, wiring: seq<Value>, held: seq<Held>, problem: Problem)
    ensures problem in Progressed(w, wiring, held).problems
       <==> exists one :: one in held && one.pin.stage == Some(Stage.Assembled) && Service(w, one).Err?
                          && problem == Of(one.pin.id, Service(w, one).error)
  {
    hide Service;
    if held != [] {
      var init, last := held[..|held| - 1], held[|held| - 1];
      assert held == init + [last];
      ProblemsMean(w, wiring, init, problem);
    }
  }

  lemma {:induction false} KeptProblemsMean(w: World, start: Keeping, held: seq<Held>, problem: Problem)
    requires start.problems == []
    ensures problem in KeptSoFar(w, start, held).problems
       <==> exists one :: one in held && one.pin.stage == Some(Stage.Installed) && StandingIn(w, one).Err?
                          && problem == Of(one.pin.id, StandingIn(w, one).error)
  {
    hide StandingIn, Serviced;
    if held != [] {
      var init, last := held[..|held| - 1], held[|held| - 1];
      assert held == init + [last];
      KeptProblemsMean(w, start, init, problem);
    }
  }
}
