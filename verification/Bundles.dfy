/** The entities of a bundle: its pins, its copies, and of each manifest the facts the rules need. */
module Bundles {
  import opened Outcomes
  import opened Toml

  datatype Stage = Assembled | Installed

  /** A row of the bundle: a plugin, and where and at what release and digests it is taken. */
  datatype Pin = Pin(
    id: string,
    origin: string,
    release: Option<string>,
    revision: string,
    manifest: string,
    tree: Option<string>,
    fills: seq<string>,
    stage: Option<Stage>,
    profile: Option<string>,
    lastRelease: Option<string>
  )

  datatype Form = Form(id: string, profiles: seq<string>)

  datatype Removed = Removed(id: string, replacedBy: Option<string>)

  datatype Wiring = Wiring(
    from: string,
    asks: Option<string>,
    each: bool,
    filledBy: Option<string>,
    to: Option<string>,
    why: Option<string>
  )

  datatype Image = Image(image: string, tag: string, digest: string)

  datatype Bundle = Bundle(
    schema: nat,
    profile: seq<string>,
    form: seq<Form>,
    wiring: seq<Wiring>,
    removed: seq<Removed>,
    plugin: seq<Pin>,
    fence: Option<Image>
  )

  /** A copy: the text of its manifest if it has one, its other files by path, and any links in it. */
  datatype Copy = Copy(
    name: string,
    manifest: Option<string>,
    files: map<string, string>,
    links: seq<string>
  )

  /** A pin joined to the text of its manifest and the files of its copy. */
  datatype Held = Held(pin: Pin, copy: string, tree: map<string, string>)

  const STACK_TABLES := ["profile", "form", "removed"]

  /** The facts of a `service` table that the rules and the wiring look at. */
  datatype Declared = Declared(
    id: string,
    fenced: bool,
    renders: bool,
    providing: seq<string>,
    speaks: seq<string>,
    replacing: Option<string>,
    reaches: Option<string>,
    asksFor: Option<string>
  )

  datatype Asked = Asked(capability: string, service: Option<string>, each: bool)

  /** The facts of a manifest that the rules and the wiring look at. */
  datatype Part = Part(
    services: seq<Declared>,
    asks: seq<Asked>,
    forms: seq<string>,
    fixtures: set<string>,
    tables: set<string>
  )

  function DeclaredOf(one: Value): Declared {
    Declared(
      Or(TextAt(one, "id"), ""),
      Or(AsBool(match Get(one, "network") case Some(network) => Get(network, "fenced") case None => None), false),
      TextAt(one, "shape") == Some("render"),
      Words(Get(one, "provides")),
      Words(Get(one, "speaks")),
      TextAt(one, "replaces"),
      TextAt(one, "reaches"),
      TextAt(one, "asks_for"))
  }

  function AskedOf(one: Value): Asked {
    Asked(Or(TextAt(one, "capability"), ""), TextAt(one, "service"), Or(AsBool(Get(one, "each")), false))
  }

  /** Every `fixture` text anywhere in `value`. */
  ghost function Fixtures(value: Value): set<string>
    decreases value, 0
  {
    match value
    case Tab(t) => set k, p | k in t && p in FixturesAt(k, t[k]) :: p
    case Array(items) => set i, p | 0 <= i < |items| && p in Fixtures(items[i]) :: p
    case _ => {}
  }

  ghost function FixturesAt(key: string, inner: Value): set<string>
    decreases inner, 1
  {
    if key == "fixture" && inner.Str? then {inner.text} else Fixtures(inner)
  }

  ghost function FixturesUnder(t: Table, keys: set<string>): set<string> {
    set k, p | k in keys && k in t && p in FixturesAt(k, t[k]) :: p
  }

  ghost function FixturesAmong(items: seq<Value>, n: nat): set<string>
    requires n <= |items|
  {
    set i, p | 0 <= i < n && p in Fixtures(items[i]) :: p
  }

  lemma FixturesUnderOneMore(t: Table, keys: set<string>, key: string)
    requires key in t
    ensures FixturesUnder(t, keys + {key}) == FixturesUnder(t, keys) + FixturesAt(key, t[key])
  {
    forall p | p in FixturesAt(key, t[key])
      ensures p in FixturesUnder(t, keys + {key})
    {
      assert key in keys + {key};
    }
    forall p | p in FixturesUnder(t, keys)
      ensures p in FixturesUnder(t, keys + {key})
    {
      var k :| k in keys && k in t && p in FixturesAt(k, t[k]);
      assert k in keys + {key};
    }
  }

  lemma FixturesAmongOneMore(items: seq<Value>, n: nat)
    requires n < |items|
    ensures FixturesAmong(items, n + 1) == FixturesAmong(items, n) + Fixtures(items[n])
  {
  }

  /** `fixtured`: the same found by pushing each onto a list shared down the recursion. */
  method Fixtured(value: Value, given: set<string>) returns (found: set<string>)
    ensures found == given + Fixtures(value)
    decreases value
  {
    found := given;
    match value {
      case Tab(t) =>
        var keys := t.Keys;
        while keys != {}
          invariant keys <= t.Keys
          invariant found == given + FixturesUnder(t, t.Keys - keys)
          decreases |keys|
        {
          var key :| key in keys;
          FixturesUnderOneMore(t, t.Keys - keys, key);
          assert t.Keys - keys + {key} == t.Keys - (keys - {key});
          if key == "fixture" && t[key].Str? {
            found := found + {t[key].text};
          } else {
            found := Fixtured(t[key], found);
          }
          keys := keys - {key};
        }
        assert t.Keys - keys == t.Keys;
        assert FixturesUnder(t, t.Keys) == Fixtures(value);
      case Array(items) =>
        for i := 0 to |items|
          invariant found == given + FixturesAmong(items, i)
        {
          FixturesAmongOneMore(items, i);
          found := Fixtured(items[i], found);
        }
      case _ =>
    }
  }

  /** The part a text declares, table by table; a text that does not parse declares an empty part. */
  ghost function DeclaredIn(w: World, manifest: string): Part {
    match w.parse(manifest)
    case None => Part([], [], [], {}, {})
    case Some(table) =>
      var services := Rows(table, "service");
      var asks := Rows(table, "ask");
      Part(
        seq(|services|, i requires 0 <= i < |services| => DeclaredOf(services[i])),
        seq(|asks|, i requires 0 <= i < |asks| => AskedOf(asks[i])),
        Words(match Field(table, "plugin") case Some(plugin) => Get(plugin, "forms") case None => None),
        Fixtures(Tab(table)),
        set name | name in STACK_TABLES && name in table)
  }

  method Declaring(w: World, manifest: string) returns (part: Part)
    ensures part == DeclaredIn(w, manifest)
  {
    match w.parse(manifest) {
      case None => part := Part([], [], [], {}, {});
      case Some(table) =>
        var services := Rows(table, "service");
        var asks := Rows(table, "ask");
        var fixtures := Fixtured(Tab(table), {});
        part := Part(
          seq(|services|, i requires 0 <= i < |services| => DeclaredOf(services[i])),
          seq(|asks|, i requires 0 <= i < |asks| => AskedOf(asks[i])),
          Words(match Field(table, "plugin") case Some(plugin) => Get(plugin, "forms") case None => None),
          fixtures,
          set name | name in STACK_TABLES && name in table);
    }
  }

  // ------------------------------------------------------- the file and its types

  /** One `[[wiring]]` row read into its type, where it is one. */
  function WiringOf(row: Value): Option<Wiring> {
    match row
    case Tab(t) =>
      if AsStr(Field(t, "by")).Some? && Optional(t, "asks") && Optional(t, "filled_by") && Optional(t, "to")
         && Optional(t, "why") && ("each" in t ==> t["each"].Bool?)
      then Some(Wiring(t["by"].text, AsStr(Field(t, "asks")), Or(AsBool(Field(t, "each")), false),
                       AsStr(Field(t, "filled_by")), AsStr(Field(t, "to")), AsStr(Field(t, "why"))))
      else None
    case _ => None
  }

  predicate Optional(t: Table, key: string) {
    key in t ==> t[key].Str?
  }

  /** Whether the typed `bundle` is the one the file's `table` reads as, as far as its wiring. */
  ghost predicate Reads(table: Table, bundle: Bundle) {
    var rows := Rows(table, "wiring");
    && |rows| == |bundle.wiring|
    && forall i | 0 <= i < |rows| :: WiringOf(rows[i]) == Some(bundle.wiring[i])
  }

  // ------------------------------------------------------- each pin with its copy

  /** The tail of `read`: each pin handed the copy taken out under its id. */
  method Handed(bundle: Bundle, copies: map<string, Copy>) returns (held: seq<Held>)
    requires forall i, j | 0 <= i < j < |bundle.plugin| :: bundle.plugin[i].id != bundle.plugin[j].id
    ensures held == HeldOf(bundle.plugin, copies)
  {
    var remaining := copies;
    held := [];
    for i := 0 to |bundle.plugin|
      invariant held == HeldOf(bundle.plugin[..i], copies)
      invariant remaining == copies - set j | 0 <= j < i :: bundle.plugin[j].id
    {
      var pin := bundle.plugin[i];
      var copy := if pin.id in remaining then remaining[pin.id] else Copy("", None, map[], []);
      remaining := remaining - {pin.id};
      held := held + [Held(pin, Or(copy.manifest, ""), copy.files)];
      assert bundle.plugin[..i + 1][..i] == bundle.plugin[..i];
    }
    assert bundle.plugin[..|bundle.plugin|] == bundle.plugin;
  }

  /** Each pin with the copy of its id. */
  function HeldOf(pins: seq<Pin>, copies: map<string, Copy>): (held: seq<Held>)
    ensures |held| == |pins|
    ensures forall i | 0 <= i < |pins| :: held[i].pin == pins[i]
    ensures forall i | 0 <= i < |pins| && pins[i].id in copies && copies[pins[i].id].manifest.Some? ::
              held[i].copy == copies[pins[i].id].manifest.value
  {
    seq(|pins|, i requires 0 <= i < |pins| =>
      var copy := if pins[i].id in copies then copies[pins[i].id] else Copy("", None, map[], []);
      Held(pins[i], Or(copy.manifest, ""), copy.files))
  }
}
