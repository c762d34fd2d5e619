/** Assembling a schema 2 bundle: the part of the stack that comes from its own tables and from the
    pins that are at the assembled stage. */
module Assembly {
  import opened Outcomes
  import opened Toml
  import opened Bundles

  const STACK_SCHEMA := "1"

  const FROM_PLUGIN := [("description", "describes"), ("without_it", "without_it"),
                        ("upstream", "upstream"), ("license", "license")]

  const DASHBOARD := [("dashboard_group", "group"), ("dashboard_description", "description"),
                      ("dashboard_icon", "icon"), ("dashboard_hidden", "hidden")]

  const FROM_MANIFEST := ["claim", "secret"]

  /** What can stop one pin from becoming a service of the stack, and a problem: that, and of which pin. */
  datatype Why = Unparsed | NotOne(declared: nat) | NotATable | NoId | NoField(field: string) | NoService

  datatype Problem = TextUnparsed | Of(id: string, why: Why)

  // ------------------------------------------------------- one service

  /** The fields of `from` that `names` lists, each under the name it is given. */
  function Renamed(from: Table, names: seq<(string, string)>): Table {
    if names == [] then map[]
    else
      var (given, taken) := names[|names| - 1];
      var rest := Renamed(from, names[..|names| - 1]);
      if given in from then rest[taken := from[given]] else rest
  }

  lemma {:induction false} RenamedKeys(from: Table, names: seq<(string, string)>, key: string)
    requires key in Renamed(from, names)
    ensures exists i :: 0 <= i < |names| && names[i].1 == key
  {
    var rest := names[..|names| - 1];
    if key != names[|names| - 1].1 {
      RenamedKeys(from, rest, key);
      var i :| 0 <= i < |rest| && rest[i].1 == key;
      assert names[i].1 == key;
    }
  }

  /** The `dashboard` table written for `id`: the row of wiring that speaks of it first, renamed. */
  function Dashboard(manifest: Table, id: string): Option<Table> {
    match FirstAbout(Rows(manifest, "wiring"), id)
    case None => None
    case Some(row) =>
      var table := Renamed(Or(AsTable(Some(row)), map[]), DASHBOARD);
      if table == map[] then None else Some(table)
  }

  predicate About(row: Value, id: string) {
    var named := TextAt(row, "service");
    named.None? || named.value == id
  }

  function FirstAbout(rows: seq<Value>, id: string): Option<Value> {
    if rows == [] then None
    else if About(rows[0], id) then Some(rows[0])
    else FirstAbout(rows[1..], id)
  }

  /** One ask of the service `maker` as the stack's wiring row, where it names a capability. */
  function AskRow(maker: string, ask: Value): Option<Value> {
    match TextAt(ask, "capability")
    case None => None
    case Some(capability) =>
      var row := map["by" := Str(maker), "asks" := Str(capability)];
      Some(Tab(if AsBool(Get(ask, "each")) == Some(true) then row["each" := Bool(true)] else row))
  }

  /** Every ask `rows` make for the service `id`, as wiring rows in order. */
  function AskRows(rows: seq<Value>, id: string): seq<Value> {
    if rows == [] then []
    else
      var rest := AskRows(rows[..|rows| - 1], id);
      var last := rows[|rows| - 1];
      if About(last, id) && AskRow(id, last).Some? then rest + [AskRow(id, last).value] else rest
  }

  /** What `stacked` makes of the service table `written` of the part `one`. */
  function Stacked(one: Held, manifest: Table, written: Table): Result<(Table, seq<Value>), Why> {
    var bare := written - {"replaces"};
    match AsStr(Field(bare, "id"))
    case None => Err(NoId)
    case Some(id) =>
      if one.pin.profile.None? then Err(NoField("profile"))
      else if one.pin.lastRelease.None? then Err(NoField("last_release"))
      else
        var pinned := bare["profile" := Str(one.pin.profile.value)]
                          ["last_release" := Str(one.pin.lastRelease.value)];
        var said := match AsTable(Field(manifest, "plugin"))
                    case Some(plugin) => pinned + Renamed(plugin, FROM_PLUGIN)
                    case None => pinned;
        var shown := match Dashboard(manifest, id)
                     case Some(dashboard) => said["dashboard" := Tab(dashboard)]
                     case None => said;
        Ok((shown, AskRows(Rows(manifest, "ask"), id)))
  }

  /** `stacked`: the service's table edited in place, field by field. */
  method Stack(one: Held, manifest: Table, given: Table) returns (r: Result<(Table, seq<Value>), Why>)
    ensures r == Stacked(one, manifest, given)
  {
    var written := given - {"replaces"};
    var named := AsStr(Field(written, "id"));
    if named.None? {
      return Err(NoId);
    }
    var id := named.value;
    var fields := [("profile", one.pin.profile), ("last_release", one.pin.lastRelease)];
    var i := 0;
    while i < |fields|
      invariant 0 <= i <= 2
      invariant i > 0 ==> one.pin.profile.Some?
      invariant i > 1 ==> one.pin.lastRelease.Some?
      invariant written ==
                  if i == 0 then given - {"replaces"}
                  else if i == 1 then (given - {"replaces"})["profile" := Str(one.pin.profile.value)]
                  else (given - {"replaces"})["profile" := Str(one.pin.profile.value)]
                                             ["last_release" := Str(one.pin.lastRelease.value)]
    {
      var (field, value) := fields[i];
      if value.None? {
        return Err(NoField(field));
      }
      written := written[field := Str(value.value)];
      i := i + 1;
    }
    var plugin := AsTable(Field(manifest, "plugin"));
    if plugin.Some? {
      ghost var before := written;
      for j := 0 to |FROM_PLUGIN|
        invariant written == before + Renamed(plugin.value, FROM_PLUGIN[..j])
      {
        assert FROM_PLUGIN[..j + 1][..j] == FROM_PLUGIN[..j];
        var (given, taken) := FROM_PLUGIN[j];
        if given in plugin.value {
          written := written[taken := plugin.value[given]];
        }
      }
      assert FROM_PLUGIN[..|FROM_PLUGIN|] == FROM_PLUGIN;
    }
    var dashboard := Dashboard(manifest, id);
    if dashboard.Some? {
      written := written["dashboard" := Tab(dashboard.value)];
    }
    var asks := [];
    var rows := Rows(manifest, "ask");
    for j := 0 to |rows|
      invariant asks == AskRows(rows[..j], id)
    {
      assert rows[..j + 1][..j] == rows[..j];
      if About(rows[j], id) {
        var row := AskRow(id, rows[j]);
        if row.Some? {
          asks := asks + [row.value];
        }
      }
    }
    assert rows[..|rows|] == rows;
    return Ok((written, asks));
  }

  /** Those of the manifest's own tables, among `names`, that are carried over untouched. */
  function AsWritten(manifest: Table, names: seq<string>): Table {
    if names == [] then map[]
    else
      var name := names[|names| - 1];
      var rest := AsWritten(manifest, names[..|names| - 1]);
      if name in manifest then rest[name := manifest[name]] else rest
  }

  lemma {:induction false} AsWrittenKeys(manifest: Table, names: seq<string>, key: string)
    requires key in AsWritten(manifest, names)
    ensures key in names
  {
    var rest := names[..|names| - 1];
    if key != names[|names| - 1] {
      AsWrittenKeys(manifest, rest, key);
      assert key in rest;
    }
  }

  method CarryOver(manifest: Table, given: Table, names: seq<string>) returns (written: Table)
    ensures written == given + AsWritten(manifest, names)
  {
    written := given;
    for i := 0 to |names|
      invariant written == given + AsWritten(manifest, names[..i])
    {
      assert names[..i + 1][..i] == names[..i];
      if names[i] in manifest {
        written := written[names[i] := manifest[names[i]]];
      }
    }
    assert names[..|names|] == names;
  }

  /** What assembling one pin adds: the table of its service and the rows of its asks; refused where
      the copy does not parse or has not exactly one service. */
  function Service(w: World, one: Held): Result<(Table, seq<Value>), Why> {
    match w.parse(one.copy)
    case None => Err(Unparsed)
    case Some(manifest) =>
      var declared := Rows(manifest, "service");
      if |declared| != 1 then Err(NotOne(|declared|))
      else if !declared[0].Tab? then Err(NotATable)
      else
        match Stacked(one, manifest, declared[0].table)
        case Err(why) => Err(why)
        case Ok((written, asks)) => Ok((written + AsWritten(manifest, FROM_MANIFEST), asks))
  }

  method ServiceWritten(w: World, one: Held) returns (r: Result<(Table, seq<Value>), Why>)
    ensures r == Service(w, one)
  {
    match w.parse(one.copy) {
      case None => return Err(Unparsed);
      case Some(manifest) =>
        var declared := Rows(manifest, "service");
        if |declared| != 1 {
          return Err(NotOne(|declared|));
        }
        if !declared[0].Tab? {
          return Err(NotATable);
        }
        var stacked := Stack(one, manifest, declared[0].table);
        if stacked.Err? {
          return Err(stacked.error);
        }
        var (written, asks) := stacked.value;
        written := CarryOver(manifest, written, FROM_MANIFEST);
        return Ok((written, asks));
    }
  }

  // ------------------------------------------------------- the stack

  /** Whether two rows agree on who asks and on what is asked for; a row without either agrees with none. */
  predicate SameAsk(row: Value, ask: Value) {
    && Get(row, "by").Some? && Get(row, "by") == Get(ask, "by")
    && Get(row, "asks").Some? && Get(row, "asks") == Get(ask, "asks")
  }

  /** The wiring with each ask put after it that no row of it makes already. */
  function WithAsks(wiring: seq<Value>, asks: seq<Value>): seq<Value> {
    if asks == [] then wiring
    else
      WithAsk(WithAsks(wiring, asks[..|asks| - 1]), asks[|asks| - 1])
  }

  function WithAsk(wiring: seq<Value>, ask: Value): seq<Value> {
    if exists row | row in wiring :: SameAsk(row, ask) then wiring else wiring + [ask]
  }

  /** What assembling the parts so far has come to. */
  datatype Progress = Progress(wiring: seq<Value>, services: seq<Value>, problems: seq<Problem>)

  function Progressed(w: World, wiring: seq<Value>, held: seq<Held>): Progress {
    if held == [] then Progress(wiring, [], [])
    else
      var before := Progressed(w, wiring, held[..|held| - 1]);
      var one := held[|held| - 1];
      if one.pin.stage != Some(Stage.Assembled) then before
      else
        match Service(w, one)
        case Ok((written, asks)) =>
          Progress(WithAsks(before.wiring, asks), before.services + [Tab(written)], before.problems)
        case Err(why) => before.(problems := before.problems + [Of(one.pin.id, why)])
  }

  /** The rows each stack table holds, those that are empty left out. */
  function Present(rows: seq<(string, seq<Value>)>): Table {
    if rows == [] then map[]
    else
      var (name, items) := rows[|rows| - 1];
      var before := Present(rows[..|rows| - 1]);
      if items == [] then before else before[name := Array(items)]
  }

  /** The stack's table from what the bundle declares and what assembling came to. */
  function StackTable(bundle: Table, progress: Progress, version: string): Table {
    map["schema_version" := Other(STACK_SCHEMA), "stack_version" := Str(version),
        "min_cli_version" := Str(version)]
    + Present([("profile", Rows(bundle, "profile")), ("form", Rows(bundle, "form")),
              ("removed", Rows(bundle, "removed")), ("wiring", progress.wiring),
              ("service", progress.services)])
  }

  function AssembledText(w: World, text: string, held: seq<Held>, version: string): Result<string, seq<Problem>> {
    match w.parse(text)
    case None => Err([TextUnparsed])
    case Some(bundle) =>
      var progress := Progressed(w, Rows(bundle, "wiring"), held);
      if progress.problems != [] then Err(progress.problems)
      else Ok(w.printed(StackTable(bundle, progress, version)))
  }

  method PutAsks(given: seq<Value>, asks: seq<Value>) returns (wiring: seq<Value>)
    ensures wiring == WithAsks(given, asks)
  {
    wiring := given;
    for i := 0 to |asks|
      invariant wiring == WithAsks(given, asks[..i])
    {
      assert asks[..i + 1][..i] == asks[..i];
      if !exists row | row in wiring :: SameAsk(row, asks[i]) {
        wiring := wiring + [asks[i]];
      }
    }
    assert asks[..|asks|] == asks;
  }

  method FillIn(given: Table, tables: seq<(string, seq<Value>)>) returns (stack: Table)
    ensures stack == given + Present(tables)
  {
    stack := given;
    for i := 0 to |tables|
      invariant stack == given + Present(tables[..i])
    {
      assert tables[..i + 1][..i] == tables[..i];
      var (name, rows) := tables[i];
      if rows != [] {
        stack := stack[name := Array(rows)];
      }
    }
    assert tables[..|tables|] == tables;
  }

  /** `assembled`: the wiring, the services and the problems grown part by part. */
  method Assemble(w: World, text: string, held: seq<Held>, version: string)
    returns (r: Result<string, seq<Problem>>)
    ensures r == AssembledText(w, text, held, version)
  {
    match w.parse(text) {
      case None => return Err([TextUnparsed]);
      case Some(bundle) =>
        var wiring := Rows(bundle, "wiring");
        var services, problems := [], [];
        for i := 0 to |held|
          invariant Progress(wiring, services, problems) == Progressed(w, Rows(bundle, "wiring"), held[..i])
        {
          assert held[..i + 1][..i] == held[..i];
          var one := held[i];
          if one.pin.stage == Some(Stage.Assembled) {
            var service := ServiceWritten(w, one);
            match service {
              case Ok((written, asks)) =>
                wiring := PutAsks(wiring, asks);
                services := services + [Tab(written)];
              case Err(why) =>
                problems := problems + [Of(one.pin.id, why)];
            }
          }
        }
        assert held[..|held|] == held;
        if problems != [] {
          return Err(problems);
        }
        var stack := map["schema_version" := Other(STACK_SCHEMA), "stack_version" := Str(version),
                         "min_cli_version" := Str(version)];
        stack := FillIn(stack, [("profile", Rows(bundle, "profile")), ("form", Rows(bundle, "form")),
                                ("removed", Rows(bundle, "removed")), ("wiring", wiring),
                                ("service", services)]);
        return Ok(w.printed(stack));
    }
  }
}
