/** Keeping the parts at the installed stage: each becomes one stand-in service, under its pin's id,
    and the choices of filler that named a service of the part are made to name the stand-in. */
module KeptParts {
  import opened Outcomes
  import opened Toml
  import opened Bundles
  import opened Assembly

  const PLUGIN_ONLY := {"native", "speaks", "contract"}

  // ------------------------------------------------------- the service that stands in

  /** Whether a declared secret is one minted at install. */
  predicate Minted(secret: Value) {
    match Get(secret, "minted")
    case None => false
    case Some(minted) => minted != Bool(false)
  }

  /** The first service table of `rows` with the id `id`. */
  function FirstOf(rows: seq<Value>, id: string): Option<Table> {
    if rows == [] then None
    else if rows[0].Tab? && TextAt(rows[0], "id") == Some(id) then Some(rows[0].table)
    else FirstOf(rows[1..], id)
  }

  /** Each of `items` after `given` once, in the order first met. */
  function Once(given: seq<Value>, items: seq<Value>): seq<Value> {
    if items == [] then given
    else
      var before := Once(given, items[..|items| - 1]);
      if items[|items| - 1] in before then before else before + [items[|items| - 1]]
  }

  /** What any service of a part provides, each once. */
  function Provided(services: seq<Value>): seq<Value> {
    if services == [] then []
    else Once(Provided(services[..|services| - 1]), AsArray(Get(services[|services| - 1], "provides")))
  }

  /** The secrets of `rows` that only the operator holds. */
  function Unminted(rows: seq<Value>): seq<Value> {
    if rows == [] then []
    else
      var before := Unminted(rows[..|rows| - 1]);
      if Minted(rows[|rows| - 1]) then before else before + [rows[|rows| - 1]]
  }

  predicate HeldSecret(declared: seq<Value>, id: string) {
    exists secret | secret in declared :: TextAt(secret, "id") == Some(id)
  }

  /** The environment without the values a minted secret fills. */
  function Environment(env: Table, declared: seq<Value>): Table {
    map name | name in env && (TextAt(env[name], "secret").None?
                               || HeldSecret(declared, TextAt(env[name], "secret").value)) :: env[name]
  }

  /** The declared secrets the environment reads. */
  function ReadBy(declared: seq<Value>, env: Option<Table>): seq<Value> {
    if declared == [] then []
    else
      var before := ReadBy(declared[..|declared| - 1], env);
      var last := declared[|declared| - 1];
      var id := TextAt(last, "id");
      if env.Some? && id.Some? && exists name | name in env.value :: TextAt(env.value[name], "secret") == id
      then before + [last] else before
  }

  function WithEnvironment(service: Table, declared: seq<Value>): Table {
    match Field(service, "env")
    case Some(Tab(env)) =>
      var kept := Environment(env, declared);
      if kept == map[] then service - {"env"} else service["env" := Tab(kept)]
    case _ => service
  }

  function WithSecrets(service: Table, declared: seq<Value>): Table {
    var secrets := ReadBy(declared, AsTable(Field(service, "env")));
    if secrets == [] then service else service["secret" := Array(secrets)]
  }

  /** The stand-in of one installed pin; refused where its copy does not parse or declares no service
      under the id it replaces. */
  function StandingIn(w: World, one: Held): Result<Table, Why> {
    match w.parse(one.copy)
    case None => Err(Unparsed)
    case Some(manifest) =>
      var services := Rows(manifest, "service");
      match FirstOf(services, one.pin.id)
      case None => Err(NoService)
      case Some(found) =>
        var declared := Unminted(Rows(manifest, "secret"));
        match Stacked(one, manifest, StandIn(found, services, declared))
        case Err(why) => Err(why)
        case Ok((written, _)) => Ok(written)
  }

  /** `found` rewritten as the stand-in: it provides for the whole part and declares its secrets. */
  function StandIn(found: Table, services: seq<Value>, declared: seq<Value>): Table {
    var bare := found - PLUGIN_ONLY;
    var provided := Provided(services);
    var providing := if provided == [] then bare else bare["provides" := Array(provided)];
    WithSecrets(WithEnvironment(providing, declared), declared)
  }

  method Gathered(services: seq<Value>) returns (provided: seq<Value>)
    ensures provided == Provided(services)
  {
    provided := [];
    for i := 0 to |services|
      invariant provided == Provided(services[..i])
    {
      assert services[..i + 1][..i] == services[..i];
      var items := AsArray(Get(services[i], "provides"));
      ghost var before := provided;
      for j := 0 to |items|
        invariant provided == Once(before, items[..j])
      {
        assert items[..j + 1][..j] == items[..j];
        if items[j] !in provided {
          provided := provided + [items[j]];
        }
      }
      assert items[..|items|] == items;
    }
    assert services[..|services|] == services;
  }

  method Unmint(rows: seq<Value>) returns (declared: seq<Value>)
    ensures declared == Unminted(rows)
  {
    declared := [];
    for i := 0 to |rows|
      invariant declared == Unminted(rows[..i])
    {
      assert rows[..i + 1][..i] == rows[..i];
      if !Minted(rows[i]) {
        declared := declared + [rows[i]];
      }
    }
    assert rows[..|rows|] == rows;
  }

  method Reading(declared: seq<Value>, env: Option<Table>) returns (secrets: seq<Value>)
    ensures secrets == ReadBy(declared, env)
  {
    secrets := [];
    for i := 0 to |declared|
      invariant secrets == ReadBy(declared[..i], env)
    {
      assert declared[..i + 1][..i] == declared[..i];
      var id := TextAt(declared[i], "id");
      if env.Some? && id.Some? && exists name | name in env.value :: TextAt(env.value[name], "secret") == id {
        secrets := secrets + [declared[i]];
      }
    }
    assert declared[..|declared|] == declared;
  }

  /** The environment kept of the service and the secrets it reads declared beside it. */
  method Secreted(given: Table, declared: seq<Value>) returns (service: Table)
    ensures service == WithSecrets(WithEnvironment(given, declared), declared)
  {
    service := given;
    if "env" in service && service["env"].Tab? {
      var env := Environment(service["env"].table, declared);
      if env == map[] {
        service := service - {"env"};
      } else {
        service := service["env" := Tab(env)];
      }
    }
    var secrets := Reading(declared, AsTable(Field(service, "env")));
    if secrets != [] {
      service := service["secret" := Array(secrets)];
    }
  }

  /** `standing_in`: the service's table edited in place, then stacked. */
  method StandsIn(w: World, one: Held) returns (r: Result<Table, Why>)
    ensures r == StandingIn(w, one)
  {
    hide Stacked, WithSecrets, WithEnvironment, FirstOf, Provided, Unminted;
    match w.parse(one.copy) {
      case None => return Err(Unparsed);
      case Some(manifest) =>
        var services := Rows(manifest, "service");
        var found := FirstOf(services, one.pin.id);
        if found.None? {
          return Err(NoService);
        }
        var service := found.value - PLUGIN_ONLY;
        var provided := Gathered(services);
        if provided != [] {
          service := service["provides" := Array(provided)];
        }
        var declared := Unmint(Rows(manifest, "secret"));
        service := Secreted(service, declared);
        var stacked := Stack(one, manifest, service);
        if stacked.Err? {
          return Err(stacked.error);
        }
        return Ok(stacked.value.0);
    }
  }

  // ------------------------------------------------------- the fillers redirected

  /** The id of every service a copy declares. */
  function Serviced(w: World, copy: string): seq<string> {
    match w.parse(copy)
    case None => []
    case Some(manifest) => Named(Rows(manifest, "service"))
  }

  function Named(services: seq<Value>): seq<string> {
    if services == [] then []
    else
      var before := Named(services[..|services| - 1]);
      var id := TextAt(services[|services| - 1], "id");
      if id.Some? then before + [id.value] else before
  }

  function NameSet(names: seq<string>): set<string> {
    set name | name in names
  }

  /** A wiring row whose filler `names` lists, naming `id` instead. */
  function Redirect(row: Value, names: set<string>, id: string): Value {
    match TextAt(row, "filled_by")
    case None => row
    case Some(filler) => if filler in names then Tab(row.table["filled_by" := Str(id)]) else row
  }

  function Redirected(wiring: seq<Value>, names: set<string>, id: string): (r: seq<Value>)
    ensures |r| == |wiring|
  {
    seq(|wiring|, i requires 0 <= i < |wiring| => Redirect(wiring[i], names, id))
  }

  /** Each row's filler replaced in place, name by name: a row the name before already sent to `id`
      stays there. */
  method Redirecting(given: seq<Value>, names: seq<string>, id: string) returns (wiring: seq<Value>)
    ensures wiring == Redirected(given, NameSet(names), id)
  {
    wiring := given;
    for i := 0 to |names|
      invariant wiring == Redirected(given, NameSet(names[..i]), id)
    {
      ghost var before := wiring;
      for j := 0 to |wiring|
        invariant |wiring| == |given|
        invariant forall k | 0 <= k < j :: wiring[k] == Redirect(before[k], {names[i]}, id)
        invariant forall k | j <= k < |wiring| :: wiring[k] == before[k]
      {
        if TextAt(wiring[j], "filled_by") == Some(names[i]) {
          wiring := wiring[j := Tab(wiring[j].table["filled_by" := Str(id)])];
        }
      }
      assert names[..i + 1] == names[..i] + [names[i]];
      forall k | 0 <= k < |given|
        ensures wiring[k] == Redirect(given[k], NameSet(names[..i + 1]), id)
      {
        RedirectTwice(given[k], NameSet(names[..i]), names[i], id);
        assert NameSet(names[..i + 1]) == NameSet(names[..i]) + {names[i]};
      }
    }
    assert names[..|names|] == names;
  }

  lemma RedirectTwice(row: Value, names: set<string>, name: string, id: string)
    ensures Redirect(Redirect(row, names, id), {name}, id) == Redirect(row, names + {name}, id)
  {
    var filler := TextAt(row, "filled_by");
    if filler.Some? && filler.value in names {
      var once := row.table["filled_by" := Str(id)];
      assert once["filled_by" := Str(id)] == once;
    }
  }

  // ------------------------------------------------------- the stack kept

  datatype Keeping = Keeping(wiring: seq<Value>, services: seq<Value>, problems: seq<Problem>)

  function KeptSoFar(w: World, start: Keeping, held: seq<Held>): Keeping {
    if held == [] then start
    else
      var before := KeptSoFar(w, start, held[..|held| - 1]);
      var one := held[|held| - 1];
      if one.pin.stage != Some(Stage.Installed) then before
      else
        match StandingIn(w, one)
        case Err(why) => before.(problems := before.problems + [Of(one.pin.id, why)])
        case Ok(service) =>
          Keeping(Redirected(before.wiring, NameSet(Serviced(w, one.copy)), one.pin.id),
                  before.services + [Tab(service)], before.problems)
  }

  function KeptText(w: World, assembled: string, held: seq<Held>): Result<string, seq<Problem>> {
    match w.parse(assembled)
    case None => Err([TextUnparsed])
    case Some(stack) =>
      var kept := KeptSoFar(w, Keeping(Rows(stack, "wiring"), Rows(stack, "service"), []), held);
      if kept.problems != [] then Err(kept.problems)
      else Ok(w.printed(stack + Present([("wiring", kept.wiring), ("service", kept.services)])))
  }

  /** `kept`: a service pushed and the fillers redirected for each part installed. */
  method Keep(w: World, assembled: string, held: seq<Held>) returns (r: Result<string, seq<Problem>>)
    ensures r == KeptText(w, assembled, held)
  {
    match w.parse(assembled) {
      case None => return Err([TextUnparsed]);
      case Some(table) =>
        var services, wiring := Rows(table, "service"), Rows(table, "wiring");
        ghost var start := Keeping(wiring, services, []);
        var problems := [];
        for i := 0 to |held|
          invariant Keeping(wiring, services, problems) == KeptSoFar(w, start, held[..i])
        {
          assert held[..i + 1][..i] == held[..i];
          var one := held[i];
          if one.pin.stage == Some(Stage.Installed) {
            var standing := StandsIn(w, one);
            match standing {
              case Err(why) =>
                problems := problems + [Of(one.pin.id, why)];
              case Ok(service) =>
                services := services + [Tab(service)];
                wiring := Redirecting(wiring, Serviced(w, one.copy), one.pin.id);
            }
          }
        }
        assert held[..|held|] == held;
        if problems != [] {
          return Err(problems);
        }
        var stack := FillIn(table, [("wiring", wiring), ("service", services)]);
        return Ok(w.printed(stack));
    }
  }

  /** The stack a build writes: assembled, then kept. */
  function Composed(w: World, text: string, held: seq<Held>, version: string): Result<string, seq<Problem>> {
    match AssembledText(w, text, held, version)
    case Err(problems) => Err(problems)
    case Ok(assembled) => KeptText(w, assembled, held)
  }
}
