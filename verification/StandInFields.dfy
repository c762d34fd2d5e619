/** Every field of the service that stands in for an installed part, read off its copy. */
module StandInFields {
  import opened Outcomes
  import opened Toml
  import opened Bundles
  import opened Assembly
  import opened KeptParts
  import opened StackFields

  // ------------------------------------------------------- environment and secrets

  /** Whether a secret's row leaves its value to the operator. */
  predicate Operators(secret: Value) {
    Get(secret, "minted").None? || Get(secret, "minted") == Some(Bool(false))
  }

  /** Whether a value names no secret, or one that some row leaves to the operator. */
  ghost predicate Supplied(manifest: Table, value: Value) {
    || TextAt(value, "secret").None?
    || exists secret :: secret in Rows(manifest, "secret") && Operators(secret)
                        && TextAt(secret, "id") == TextAt(value, "secret")
  }

  /** An environment is left with the values that are supplied, as they were; one left with none is
      not written. */
  ghost predicate EnvironmentLeft(manifest: Table, given: Option<Value>, written: Option<Value>) {
    match given
    case Some(Tab(env)) =>
      if forall name | name in env :: !Supplied(manifest, env[name]) then written.None?
      else
        && written.Some? && written.value.Tab?
        && var kept := written.value.table;
           && (forall name :: name in kept <==> name in env && Supplied(manifest, env[name]))
           && (forall name | name in kept :: kept[name] == env[name])
    case _ => written == given
  }

  /** Whether some value of a written environment names the secret of this row. */
  ghost predicate Wanted(env: Option<Value>, secret: Value) {
    && env.Some? && env.value.Tab? && TextAt(secret, "id").Some?
    && exists name :: name in env.value.table && TextAt(env.value.table[name], "secret") == TextAt(secret, "id")
  }

  predicate Ascend(places: seq<nat>) {
    forall a, b | 0 <= a < b < |places| :: places[a] < places[b]
  }

  /** The rows at `places`. */
  function Picked(rows: seq<Value>, places: seq<nat>): seq<Value>
    requires forall p | p in places :: p < |rows|
  {
    seq(|places|, k requires 0 <= k < |places| => assert places[k] in places; rows[places[k]])
  }

  /** The secrets written are the rows left to the operator that the environment wants, each where
      the manifest has it; where there are none the service's own stay. */
  ghost predicate SecretsAt(rows: seq<Value>, env: Option<Value>, given: Option<Value>, written: Option<Value>,
                            places: seq<nat>) {
    && Ascend(places)
    && (forall p | p in places :: p < |rows|)
    && (forall p | 0 <= p < |rows| :: p in places <==> Operators(rows[p]) && Wanted(env, rows[p]))
    && written == if places == [] then given else Some(Array(Picked(rows, places)))
  }

  lemma AscendMore(places: seq<nat>, next: nat)
    requires Ascend(places) && forall p | p in places :: p < next
    ensures Ascend(places + [next])
  {
    assert forall a | 0 <= a < |places| :: places[a] in places;
  }

  lemma {:induction false} OperatorsAt(rows: seq<Value>) returns (places: seq<nat>)
    ensures Ascend(places)
    ensures forall p | p in places :: p < |rows|
    ensures forall p | 0 <= p < |rows| :: p in places <==> Operators(rows[p])
    ensures Unminted(rows) == Picked(rows, places)
  {
    places := [];
    if rows != [] {
      var init, last := rows[..|rows| - 1], rows[|rows| - 1];
      places := OperatorsAt(init);
      assert forall p | p in places :: p < |init| && rows[p] == init[p];
      if Operators(last) {
        AscendMore(places, |init|);
        places := places + [|init|];
      }
    }
  }

  lemma {:induction false} ReadAt(rows: seq<Value>, env: Option<Table>) returns (places: seq<nat>)
    ensures Ascend(places)
    ensures forall p | p in places :: p < |rows|
    ensures forall p | 0 <= p < |rows| :: p in places <==> env.Some? && Wanted(Some(Tab(env.value)), rows[p])
    ensures ReadBy(rows, env) == Picked(rows, places)
  {
    places := [];
    if rows != [] {
      var init, last := rows[..|rows| - 1], rows[|rows| - 1];
      places := ReadAt(init, env);
      assert forall p | p in places :: p < |init| && rows[p] == init[p];
      if env.Some? && Wanted(Some(Tab(env.value)), last) {
        AscendMore(places, |init|);
        places := places + [|init|];
      }
    }
  }

  /** Rows picked of rows picked are rows picked. */
  lemma PickedTwice(rows: seq<Value>, first: seq<nat>, second: seq<nat>) returns (places: seq<nat>)
    requires Ascend(first) && forall p | p in first :: p < |rows|
    requires Ascend(second) && forall p | p in second :: p < |first|
    ensures Ascend(places)
    ensures forall p | p in places :: p < |rows|
    ensures forall p :: p in places <==> exists k :: k in second && first[k] == p
    ensures Picked(rows, places) == Picked(Picked(rows, first), second)
  {
    places := seq(|second|, k requires 0 <= k < |second| => assert second[k] in second; first[second[k]]);
    forall p
      ensures p in places <==> exists k :: k in second && first[k] == p
    {
      if p in places {
        var k :| 0 <= k < |places| && places[k] == p;
        assert second[k] in second;
      }
      if k :| k in second && first[k] == p {
        var j :| 0 <= j < |second| && second[j] == k;
        assert places[j] == p;
      }
    }
    forall k | 0 <= k < |second|
      ensures second[k] in second && places[k] < |rows|
    {
      assert second[k] in second;
      assert first[second[k]] in first;
    }
  }

  lemma SecretsHold(manifest: Table, service: Table) returns (places: seq<nat>)
    ensures var declared := Unminted(Rows(manifest, "secret"));
            SecretsAt(Rows(manifest, "secret"), Field(service, "env"), Field(service, "secret"),
                      Field(WithSecrets(service, declared), "secret"), places)
  {
    var rows := Rows(manifest, "secret");
    var env := AsTable(Field(service, "env"));
    var first := OperatorsAt(rows);
    var declared := Picked(rows, first);
    var second := ReadAt(declared, env);
    places := PickedTwice(rows, first, second);
    assert (places == []) == (ReadBy(declared, env) == []);
    hide Operators;
    forall p | 0 <= p < |rows|
      ensures p in places <==> Operators(rows[p]) && Wanted(Field(service, "env"), rows[p])
    {
      if p in first {
        var k :| 0 <= k < |first| && first[k] == p;
        assert declared[k] == rows[p];
        assert forall j | 0 <= j < |first| && first[j] == p :: j == k;
      }
    }
  }

  lemma EnvironmentHolds(manifest: Table, service: Table)
    ensures var declared := Unminted(Rows(manifest, "secret"));
            EnvironmentLeft(manifest, Field(service, "env"), Field(WithEnvironment(service, declared), "env"))
  {
    var rows := Rows(manifest, "secret");
    var places := OperatorsAt(rows);
    var declared := Picked(rows, places);
    forall value
      ensures Supplied(manifest, value)
         <==> TextAt(value, "secret").None? || HeldSecret(declared, TextAt(value, "secret").value)
    {
      if TextAt(value, "secret").Some? {
        if secret :| secret in rows && Operators(secret) && TextAt(secret, "id") == TextAt(value, "secret") {
          var p :| 0 <= p < |rows| && rows[p] == secret;
          var k :| 0 <= k < |places| && places[k] == p;
          assert declared[k] == secret;
        }
        if secret :| secret in declared && TextAt(secret, "id") == TextAt(value, "secret") {
          var k :| 0 <= k < |declared| && declared[k] == secret;
          assert places[k] in places;
        }
      }
    }
    hide Supplied, HeldSecret, Picked, Unminted;
    if Field(service, "env").Some? && Field(service, "env").value.Tab? {
      var env := Field(service, "env").value.table;
      var kept := Environment(env, declared);
      assert forall name :: name in kept <==> name in env && Supplied(manifest, env[name]);
      assert kept == map[] <==> forall name | name in env :: !Supplied(manifest, env[name]);
    }
  }

  // ------------------------------------------------------- what is provided

  /** Whether row `r` provides `one` as its `i`th. */
  predicate ProvidesAt(rows: seq<Value>, r: nat, i: nat, one: Value) {
    r < |rows| && i < |AsArray(Get(rows[r], "provides"))| && AsArray(Get(rows[r], "provides"))[i] == one
  }

  predicate Earlier(r: nat, i: nat, r': nat, i': nat) {
    r < r' || (r == r' && i < i')
  }

  ghost predicate MetEarlier(rows: seq<Value>, one: Value, other: Value) {
    exists r, i :: ProvidesAt(rows, r, i, one)
                   && forall r', i' | ProvidesAt(rows, r', i', other) :: Earlier(r, i, r', i')
  }

  /** The list of all that any row provides, once each, as they are first met row by row. */
  ghost predicate AllProvided(rows: seq<Value>, list: seq<Value>) {
    && (forall one :: one in list <==> exists r, i :: ProvidesAt(rows, r, i, one))
    && (forall a, b | 0 <= a < b < |list| :: list[a] != list[b] && MetEarlier(rows, list[a], list[b]))
  }

  lemma {:induction false} OnceMeans(given: seq<Value>, items: seq<Value>)
    ensures given <= Once(given, items)
    ensures forall one :: one in Once(given, items) <==> one in given || one in items
    ensures forall b | |given| <= b < |Once(given, items)| ::
              Once(given, items)[b] in items && Once(given, items)[b] !in given
    ensures forall a, b | |given| <= a < b < |Once(given, items)| ::
              Once(given, items)[a] != Once(given, items)[b]
              && exists i :: 0 <= i < |items| && items[i] == Once(given, items)[a]
                   && forall j | 0 <= j < |items| && items[j] == Once(given, items)[b] :: i < j
  {
    if items != [] {
      var init, last := items[..|items| - 1], items[|items| - 1];
      assert items == init + [last];
      OnceMeans(given, init);
      var before, all := Once(given, init), Once(given, items);
      forall a, b | |given| <= a < b < |all|
        ensures all[a] != all[b]
                && exists i :: 0 <= i < |items| && items[i] == all[a]
                     && forall j | 0 <= j < |items| && items[j] == all[b] :: i < j
      {
        assert before[a] in init;
        if b < |before| {
          var i :| 0 <= i < |init| && init[i] == before[a]
                   && forall j | 0 <= j < |init| && init[j] == before[b] :: i < j;
          assert items[i] == all[a];
        } else {
          var i :| 0 <= i < |init| && init[i] == before[a];
          assert items[i] == all[a];
        }
      }
    }
  }

  lemma {:induction false} ProvidedMeans(rows: seq<Value>)
    ensures AllProvided(rows, Provided(rows))
  {
    if rows != [] {
      var init := rows[..|rows| - 1];
      var before, all := Provided(init), Provided(rows);
      ProvidedMeans(init);
      assert all == Once(before, AsArray(Get(rows[|rows| - 1], "provides")));
      hide Once, Provided, MetEarlier;
      forall one
        ensures one in all <==> exists q, i :: ProvidesAt(rows, q, i, one)
      {
        ProvidedMore(rows, init, before, all, one);
      }
      forall a, b | 0 <= a < b < |all|
        ensures all[a] != all[b] && MetEarlier(rows, all[a], all[b])
      {
        MetIn(rows, before, all, a, b);
      }
    }
  }

  lemma ProvidedMore(rows: seq<Value>, init: seq<Value>, before: seq<Value>, all: seq<Value>, one: Value)
    requires rows != [] && init == rows[..|rows| - 1]
    requires one in before <==> exists q, i :: ProvidesAt(init, q, i, one)
    requires all == Once(before, AsArray(Get(rows[|rows| - 1], "provides")))
    ensures one in all <==> exists q, i :: ProvidesAt(rows, q, i, one)
  {
    var r := |rows| - 1;
    var items := AsArray(Get(rows[r], "provides"));
    OnceMeans(before, items);
    PlacesGrow(rows);
    if one in items {
      var i :| 0 <= i < |items| && items[i] == one;
      assert ProvidesAt(rows, r, i, one);
    }
    hide ProvidesAt, Once;
    if q, i :| ProvidesAt(init, q, i, one) {
      assert ProvidesAt(rows, q, i, one);
    }
  }

  lemma PlacesGrow(rows: seq<Value>)
    requires rows != []
    ensures forall q: nat, i: nat, one :: ProvidesAt(rows, q, i, one) <==>
              || ProvidesAt(rows[..|rows| - 1], q, i, one)
              || (q == |rows| - 1 && i < |AsArray(Get(rows[q], "provides"))|
                  && AsArray(Get(rows[q], "provides"))[i] == one)
  {
  }

  /** Both met in rows before the last. */
  lemma MetBefore(rows: seq<Value>, one: Value, other: Value)
    requires rows != [] && MetEarlier(rows[..|rows| - 1], one, other)
    ensures MetEarlier(rows, one, other)
  {
    var init := rows[..|rows| - 1];
    PlacesGrow(rows);
    var q, i :| ProvidesAt(init, q, i, one)
                && forall q', i' | ProvidesAt(init, q', i', other) :: Earlier(q, i, q', i');
    InEarlierRow(init, q, i, one);
    hide ProvidesAt;
    assert ProvidesAt(rows, q, i, one);
  }

  /** One met in a row before the last, and the other only there. */
  lemma MetFirst(rows: seq<Value>, init: seq<Value>, one: Value, other: Value)
    requires rows != [] && init == rows[..|rows| - 1]
    requires exists q, i :: ProvidesAt(init, q, i, one)
    requires !exists q, i :: ProvidesAt(init, q, i, other)
    ensures MetEarlier(rows, one, other)
  {
    PlacesGrow(rows);
    var q, i :| ProvidesAt(init, q, i, one);
    InEarlierRow(init, q, i, one);
    hide ProvidesAt;
    assert ProvidesAt(rows, q, i, one);
    assert forall q', i' | ProvidesAt(rows, q', i', other) :: Earlier(q, i, q', i');
  }

  /** Both met in the last row alone. */
  lemma MetLast(rows: seq<Value>, init: seq<Value>, one: Value, other: Value, r: nat, i: nat)
    requires rows != [] && r == |rows| - 1 && init == rows[..r]
    requires ProvidesAt(rows, r, i, one)
    requires !exists q, j :: ProvidesAt(init, q, j, other)
    requires forall j: nat | ProvidesAt(rows, r, j, other) :: i < j
    ensures MetEarlier(rows, one, other)
  {
    PlacesGrow(rows);
    forall q', i' | ProvidesAt(rows, q', i', other)
      ensures Earlier(r, i, q', i')
    {
      assert !ProvidesAt(init, q', i', other);
    }
  }

  lemma MetIn(rows: seq<Value>, before: seq<Value>, all: seq<Value>, a: nat, b: nat)
    requires rows != [] && a < b < |all|
    requires before == Provided(rows[..|rows| - 1]) && AllProvided(rows[..|rows| - 1], before)
    requires all == Once(before, AsArray(Get(rows[|rows| - 1], "provides")))
    ensures all[a] != all[b] && MetEarlier(rows, all[a], all[b])
  {
    var init, r := rows[..|rows| - 1], |rows| - 1;
    var items := AsArray(Get(rows[r], "provides"));
    OnceMeans(before, items);
    hide Once, Provided, MetEarlier;
    if b < |before| {
      MetBefore(rows, before[a], before[b]);
    } else if a < |before| {
      assert before[a] in before && all[b] !in before;
      MetFirst(rows, init, before[a], all[b]);
    } else {
      var i :| 0 <= i < |items| && items[i] == all[a]
               && forall j | 0 <= j < |items| && items[j] == all[b] :: i < j;
      assert ProvidesAt(rows, r, i, all[a]);
      assert all[b] !in before;
      MetLast(rows, init, all[a], all[b], r, i);
    }
  }

  lemma InEarlierRow(rows: seq<Value>, r: nat, i: nat, one: Value)
    requires ProvidesAt(rows, r, i, one)
    ensures r < |rows|
  {
  }

  // ------------------------------------------------------- the whole table

  /** What the stand-in `written` holds under `key`, made of the service `found`. */
  ghost predicate StandInField(pin: Pin, manifest: Table, found: Table, written: Table, key: string) {
    match key
    case "native" => Field(written, key).None?
    case "speaks" => Field(written, key).None?
    case "contract" => Field(written, key).None?
    case "provides" =>
      exists list :: AllProvided(Rows(manifest, "service"), list)
                     && Field(written, key) == if list == [] then Field(found, key) else Some(Array(list))
    case "env" => EnvironmentLeft(manifest, Field(found, key), Field(written, key))
    case "secret" =>
      exists places :: SecretsAt(Rows(manifest, "secret"), Field(written, "env"), Field(found, key),
                                 Field(written, key), places)
    case _ => FieldOf(pin, manifest, pin.id, found, written, key)
  }

  /** Whether `j` is the first of `rows` under the id. */
  predicate FirstNamed(rows: seq<Value>, id: string, j: nat) {
    j < |rows| && TextAt(rows[j], "id") == Some(id) && forall k | 0 <= k < j :: TextAt(rows[k], "id") != Some(id)
  }

  lemma {:induction false} FoundFirst(rows: seq<Value>, id: string)
    ensures FirstOf(rows, id).None? <==> forall j | 0 <= j < |rows| :: TextAt(rows[j], "id") != Some(id)
    ensures forall j: nat | FirstNamed(rows, id, j) :: rows[j].Tab? && FirstOf(rows, id) == Some(rows[j].table)
  {
    if rows != [] {
      FoundFirst(rows[1..], id);
      assert forall j | 0 < j < |rows| :: rows[j] == rows[1..][j - 1];
      forall j: nat | FirstNamed(rows, id, j)
        ensures rows[j].Tab? && FirstOf(rows, id) == Some(rows[j].table)
      {
        if j > 0 {
          assert FirstNamed(rows[1..], id, j - 1);
        }
      }
    }
  }

  /** What the service that is found holds under `key` once made into the stand-in, before stacking. */
  ghost predicate StandingField(manifest: Table, found: Table, standing: Table, key: string) {
    match key
    case "native" => Field(standing, key).None?
    case "speaks" => Field(standing, key).None?
    case "contract" => Field(standing, key).None?
    case "provides" =>
      exists list :: AllProvided(Rows(manifest, "service"), list)
                     && Field(standing, key) == if list == [] then Field(found, key) else Some(Array(list))
    case "env" => EnvironmentLeft(manifest, Field(found, key), Field(standing, key))
    case "secret" =>
      exists places :: SecretsAt(Rows(manifest, "secret"), Field(standing, "env"), Field(found, key),
                                 Field(standing, key), places)
    case _ => Field(standing, key) == Field(found, key)
  }

  function Providing(found: Table, provided: seq<Value>): Table {
    var bare := found - {"native", "speaks", "contract"};
    if provided == [] then bare else bare["provides" := Array(provided)]
  }

  /** What is left alone by each of the three edits. */
  lemma EditsKeep(found: Table, provided: seq<Value>, declared: seq<Value>, key: string)
    ensures var supplied := WithEnvironment(Providing(found, provided), declared);
            var standing := WithSecrets(supplied, declared);
            && (key != "secret" ==> Field(standing, key) == Field(supplied, key))
            && (key != "env" ==> Field(supplied, key) == Field(Providing(found, provided), key))
  {
    hide Environment, ReadBy, Providing;
  }

  /** The three edits, one after another. */
  lemma StandInEdits(found: Table, rows: seq<Value>, declared: seq<Value>)
    ensures StandIn(found, rows, declared)
            == WithSecrets(WithEnvironment(Providing(found, Provided(rows)), declared), declared)
    ensures var providing := Providing(found, Provided(rows));
            && Field(providing, "env") == Field(found, "env") && Field(providing, "secret") == Field(found, "secret")
  {
    hide WithSecrets, WithEnvironment, Provided;
  }

  lemma ProvidingHolds(found: Table, rows: seq<Value>, key: string)
    ensures var providing := Providing(found, Provided(rows));
            match key
            case "native" => Field(providing, key).None?
            case "speaks" => Field(providing, key).None?
            case "contract" => Field(providing, key).None?
            case "provides" =>
              exists list :: AllProvided(rows, list)
                             && Field(providing, key) == if list == [] then Field(found, key) else Some(Array(list))
            case _ => Field(providing, key) == Field(found, key)
  {
    ProvidedMeans(rows);
    hide Provided, AllProvided;
  }

  lemma StandInHolds(manifest: Table, found: Table, key: string)
    ensures var standing := StandIn(found, Rows(manifest, "service"), Unminted(Rows(manifest, "secret")));
            StandingField(manifest, found, standing, key)
  {
    hide AllProvided, EnvironmentLeft, SecretsAt, Provided, Unminted, WithEnvironment, WithSecrets, Rows, StandIn,
         Providing;
    var rows, declared := Rows(manifest, "service"), Unminted(Rows(manifest, "secret"));
    var provided := Provided(rows);
    var providing := Providing(found, provided);
    var supplied := WithEnvironment(providing, declared);
    StandInEdits(found, rows, declared);
    EditsKeep(found, provided, declared, key);
    ProvidingHolds(found, rows, key);
    if key == "secret" {
      EditsKeep(found, provided, declared, "env");
      var places := SecretsHold(manifest, supplied);
    } else if key == "env" {
      EnvironmentHolds(manifest, providing);
    }
  }

  /** A stand-in is written exactly where the copy parses and has a service under the pin's id, and
      the pin says under which profile and of which release; and every field of what is written is
      then accounted for. */
  lemma StandInFieldsHold(w: World, one: Held, key: string) returns (j: nat)
    ensures StandingIn(w, one).Ok? <==>
              && w.parse(one.copy).Some?
              && (exists k :: 0 <= k < |Rows(w.parse(one.copy).value, "service")|
                              && TextAt(Rows(w.parse(one.copy).value, "service")[k], "id") == Some(one.pin.id))
              && one.pin.profile.Some? && one.pin.lastRelease.Some?
    ensures StandingIn(w, one).Ok? ==>
              var manifest := w.parse(one.copy).value;
              && FirstNamed(Rows(manifest, "service"), one.pin.id, j)
              && Rows(manifest, "service")[j].Tab?
              && StandInField(one.pin, manifest, Rows(manifest, "service")[j].table, StandingIn(w, one).value, key)
  {
    j := 0;
    if w.parse(one.copy).Some? {
      var manifest := w.parse(one.copy).value;
      var rows := Rows(manifest, "service");
      FoundFirst(rows, one.pin.id);
      if FirstOf(rows, one.pin.id).Some? {
        j := FirstPlace(rows, one.pin.id);
        StandInStacked(one, manifest, rows[j].table, key);
      }
    }
  }

  lemma {:induction false} FirstPlace(rows: seq<Value>, id: string) returns (j: nat)
    requires exists k :: 0 <= k < |rows| && TextAt(rows[k], "id") == Some(id)
    ensures FirstNamed(rows, id, j)
  {
    if TextAt(rows[0], "id") == Some(id) {
      j := 0;
    } else {
      var k :| 0 <= k < |rows| && TextAt(rows[k], "id") == Some(id);
      assert rows[1..][k - 1] == rows[k];
      j := FirstPlace(rows[1..], id);
      j := j + 1;
    }
  }

  lemma StandInStacked(one: Held, manifest: Table, found: Table, key: string)
    requires AsStr(Field(found, "id")) == Some(one.pin.id)
    ensures var standing := StandIn(found, Rows(manifest, "service"), Unminted(Rows(manifest, "secret")));
            var stacked := Stacked(one, manifest, standing);
            && (stacked.Ok? <==> one.pin.profile.Some? && one.pin.lastRelease.Some?)
            && (stacked.Ok? ==> StandInField(one.pin, manifest, found, stacked.value.0, key))
  {
    var standing := StandIn(found, Rows(manifest, "service"), Unminted(Rows(manifest, "secret")));
    StandInHolds(manifest, found, "id");
    StandInHolds(manifest, found, key);
    var stacked := Stacked(one, manifest, standing);
    assert stacked.Ok? <==> one.pin.profile.Some? && one.pin.lastRelease.Some?;
    hide Stacked, StandIn;
    if stacked.Ok? {
      StackedFields(one, manifest, standing, key);
      StackedFields(one, manifest, standing, "env");
      StandInWritten(one.pin, manifest, found, standing, stacked.value.0, key);
    }
  }

  lemma StandInWritten(pin: Pin, manifest: Table, found: Table, standing: Table, written: Table, key: string)
    requires standing == StandIn(found, Rows(manifest, "service"), Unminted(Rows(manifest, "secret")))
    requires FieldOf(pin, manifest, pin.id, standing, written, key)
    requires FieldOf(pin, manifest, pin.id, standing, written, "env")
    ensures StandInField(pin, manifest, found, written, key)
  {
    StandInHolds(manifest, found, key);
    GivenAlike(pin, manifest, pin.id, standing, found, written, key);
    hide StandIn, AllProvided, EnvironmentLeft, SecretsAt, DashboardSaid, Rows, Unminted;
  }

  /** A field is accounted for alike by two tables that agree on it. */
  lemma GivenAlike(pin: Pin, manifest: Table, id: string, given: Table, other: Table, written: Table, key: string)
    requires FieldOf(pin, manifest, id, given, written, key)
    ensures Field(given, key) == Field(other, key) ==> FieldOf(pin, manifest, id, other, written, key)
  {
    hide DashboardSaid;
  }
}
