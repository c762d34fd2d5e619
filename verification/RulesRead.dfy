/** Every rule of a schema 2 bundle read off the manifests' own rows: what a bundle must say for
    nothing to be found broken, and nothing more. */
module RulesRead {
  import opened Outcomes
  import opened Sorting
  import opened Texts
  import opened Toml
  import opened Bundles
  import opened BundleChecker

  // ------------------------------------------------------- what rows say

  /** What a row says under `key`, nothing where it says none. */
  function SaidAt(row: Value, key: string): string {
    match Get(row, key)
    case Some(Str(text)) => text
    case _ => ""
  }

  ghost predicate Lists(row: Value, key: string, word: string) {
    Get(row, key).Some? && Get(row, key).value.Array? && Str(word) in Get(row, key).value.items
  }

  ghost predicate BehindFence(row: Value) {
    Get(row, "network").Some? && Get(Get(row, "network").value, "fenced") == Some(Bool(true))
  }

  lemma DeclaredReads(row: Value)
    ensures var one := DeclaredOf(row);
            && one.id == SaidAt(row, "id")
            && (one.fenced <==> BehindFence(row))
            && (one.renders <==> Get(row, "shape") == Some(Str("render")))
            && (forall word :: word in one.providing <==> Lists(row, "provides", word))
            && (forall word :: word in one.speaks <==> Lists(row, "speaks", word))
            && (one.replacing.Some? <==> TextAt(row, "replaces").Some?)
            && (one.replacing.Some? ==> one.replacing.value == SaidAt(row, "replaces"))
            && (one.reaches.Some? <==> TextAt(row, "reaches").Some?)
            && (one.asksFor.Some? <==> TextAt(row, "asks_for").Some?)
            && (one.asksFor.Some? ==> one.asksFor.value == SaidAt(row, "asks_for"))
  {
    forall word
      ensures word in DeclaredOf(row).providing <==> Lists(row, "provides", word)
      ensures word in DeclaredOf(row).speaks <==> Lists(row, "speaks", word)
    {
      TextsHold(AsArray(Get(row, "provides")), word);
      TextsHold(AsArray(Get(row, "speaks")), word);
    }
  }

  // ------------------------------------------------------- fixtures

  /** One step down into a value: to what a key names, or to an item. */
  datatype Step = Key(name: string) | Item(i: nat)

  /** Whether these steps lead from `value` to `to`. */
  ghost predicate Leads(value: Value, steps: seq<Step>, to: Value)
    decreases |steps|
  {
    if steps == [] then value == to
    else
      match (value, steps[0])
      case (Tab(t), Key(name)) => name in t && Leads(t[name], steps[1..], to)
      case (Array(items), Item(i)) => i < |items| && Leads(items[i], steps[1..], to)
      case _ => false
  }

  /** Whether some table in `value`, however deep, has the text `path` under `fixture`. */
  ghost predicate NamesFixture(value: Value, path: string) {
    exists steps, t :: Leads(value, steps, Tab(t)) && Field(t, "fixture") == Some(Str(path))
  }

  lemma {:induction false} FixtureLed(value: Value, path: string) returns (steps: seq<Step>, t: Table)
    requires path in Fixtures(value)
    ensures Leads(value, steps, Tab(t)) && Field(t, "fixture") == Some(Str(path))
    decreases value
  {
    match value {
      case Tab(own) =>
        var k :| k in own && path in FixturesAt(k, own[k]);
        if k == "fixture" && own[k].Str? {
          steps, t := [], own;
        } else {
          var rest;
          rest, t := FixtureLed(own[k], path);
          steps := [Key(k)] + rest;
          assert steps[1..] == rest;
        }
      case Array(items) =>
        var i :| 0 <= i < |items| && path in Fixtures(items[i]);
        var rest;
        rest, t := FixtureLed(items[i], path);
        steps := [Item(i)] + rest;
        assert steps[1..] == rest;
    }
  }

  lemma {:induction false} LedToFixture(value: Value, steps: seq<Step>, t: Table, path: string)
    requires Leads(value, steps, Tab(t)) && Field(t, "fixture") == Some(Str(path))
    ensures path in Fixtures(value)
    decreases |steps|
  {
    if steps == [] {
      assert path in FixturesAt("fixture", t["fixture"]);
    } else {
      match value {
        case Tab(own) =>
          var k := steps[0].name;
          LedToFixture(own[k], steps[1..], t, path);
          assert path in FixturesAt(k, own[k]);
        case Array(items) =>
          LedToFixture(items[steps[0].i], steps[1..], t, path);
      }
    }
  }

  /** The fixtures of a value are the texts its tables name as one, at any depth. */
  lemma FixturesRead(value: Value, path: string)
    ensures path in Fixtures(value) <==> NamesFixture(value, path)
  {
    if path in Fixtures(value) {
      var steps, t := FixtureLed(value, path);
    }
    if steps, t :| Leads(value, steps, Tab(t)) && Field(t, "fixture") == Some(Str(path)) {
      LedToFixture(value, steps, t, path);
    }
  }

  // ------------------------------------------------------- asks

  /** Whether `ask` is one of a manifest's asks of the capability, of one filler only, made by the
      service `maker`: by name, or as the one service there is where it names none. */
  ghost predicate AsksOf(manifest: Table, ask: Value, capability: string, maker: string) {
    && ask in Rows(manifest, "ask")
    && SaidAt(ask, "capability") == capability && Get(ask, "each") != Some(Bool(true))
    && if TextAt(ask, "service").Some? then SaidAt(ask, "service") == maker
       else |Rows(manifest, "service")| == 1 && SaidAt(Rows(manifest, "service")[0], "id") == maker
  }

  lemma OneAsk(w: World, manifest: string, i: nat, capability: string, maker: string)
    requires w.parse(manifest).Some? && i < |Rows(w.parse(manifest).value, "ask")|
    ensures var part, table := DeclaredIn(w, manifest), w.parse(manifest).value;
            && |part.asks| == |Rows(table, "ask")|
            && var ask := part.asks[i];
               (ask.capability == capability && !ask.each && Asker(part, ask) == Some(maker))
                 <==> AsksOf(table, Rows(table, "ask")[i], capability, maker)
  {
    var part, table := DeclaredIn(w, manifest), w.parse(manifest).value;
    var row := Rows(table, "ask")[i];
    assert part.asks[i] == AskedOf(row);
    assert row in Rows(table, "ask");
    var services := Rows(table, "service");
    assert |part.services| == |services|;
    if |services| == 1 {
      DeclaredReads(services[0]);
      assert part.services[0] == DeclaredOf(services[0]);
    }
    hide Fixtures, DeclaredOf, Words;
  }

  /** A part makes an ask once exactly where its manifest has a row that does. */
  lemma AskedOnce(w: World, manifest: string, capability: string, maker: string)
    ensures AsksOnce(DeclaredIn(w, manifest), capability, maker)
       <==> w.parse(manifest).Some? && exists ask :: AsksOf(w.parse(manifest).value, ask, capability, maker)
  {
    var part := DeclaredIn(w, manifest);
    if w.parse(manifest).Some? {
      var table := w.parse(manifest).value;
      var asks := Rows(table, "ask");
      assert |part.asks| == |asks|;
      hide DeclaredIn, Asker;
      if ask :| ask in part.asks && ask.capability == capability && !ask.each && Asker(part, ask) == Some(maker) {
        var i :| 0 <= i < |part.asks| && part.asks[i] == ask;
        OneAsk(w, manifest, i, capability, maker);
      }
      if ask :| AsksOf(table, ask, capability, maker) {
        var i :| 0 <= i < |asks| && asks[i] == ask;
        OneAsk(w, manifest, i, capability, maker);
        assert part.asks[i] in part.asks;
      }
    }
  }

  // ------------------------------------------------------- services of all parts

  /** The manifest read of a pin's copy, where it has one that parses. */
  function ManifestOf(w: World, pin: Pin, copies: map<string, Copy>): Option<Table> {
    if pin.id in copies && copies[pin.id].manifest.Some? then w.parse(copies[pin.id].manifest.value) else None
  }

  /** Whether row `r` of the pin's manifest is a service called `name`. */
  ghost predicate ServiceAt(w: World, pins: seq<Pin>, copies: map<string, Copy>, pin: Pin, r: nat, name: string) {
    && pin in pins && ManifestOf(w, pin, copies).Some?
    && r < |Rows(ManifestOf(w, pin, copies).value, "service")|
    && SaidAt(Rows(ManifestOf(w, pin, copies).value, "service")[r], "id") == name
  }

  /** Where several services are called alike, the one of the last pin by id stands, and of that
      pin's the last. */
  ghost predicate Stands(w: World, pins: seq<Pin>, copies: map<string, Copy>, pin: Pin, r: nat, name: string) {
    && ServiceAt(w, pins, copies, pin, r, name)
    && forall other, q: nat | ServiceAt(w, pins, copies, other, q, name) ::
         Before(other.id, pin.id) || (other.id == pin.id && q <= r)
  }

  /** The last service so called that a part declares, if it does. */
  lemma {:induction false} CataloguedLast(services: seq<Declared>, given: map<string, Declared>, name: string)
    returns (r: nat)
    ensures name in Catalogued(services, given)
       <==> name in given || exists i :: 0 <= i < |services| && services[i].id == name
    ensures (exists i :: 0 <= i < |services| && services[i].id == name) ==>
              && r < |services| && services[r].id == name && Catalogued(services, given)[name] == services[r]
              && forall i | 0 <= i < |services| && services[i].id == name :: i <= r
    ensures !(exists i :: 0 <= i < |services| && services[i].id == name) && name in given ==>
              Catalogued(services, given)[name] == given[name]
  {
    r := 0;
    if services != [] {
      var init := services[..|services| - 1];
      r := CataloguedLast(init, given, name);
      assert forall i | 0 <= i < |init| :: init[i] == services[i];
      if services[|services| - 1].id == name {
        r := |services| - 1;
      }
    }
  }

  lemma {:induction false} CataloguedAllLast(ids: seq<string>, parts: map<string, Part>, name: string)
    returns (p: string, r: nat)
    requires forall id | id in ids :: id in parts
    requires forall i, j | 0 <= i < j < |ids| :: Before(ids[i], ids[j])
    ensures name in CataloguedAll(ids, parts) <==> exists q, i :: q in ids && DeclaresAt(parts, q, i, name)
    ensures name in CataloguedAll(ids, parts) ==>
              && p in ids && DeclaresAt(parts, p, r, name) && CataloguedAll(ids, parts)[name] == parts[p].services[r]
              && forall q, i: nat | q in ids && DeclaresAt(parts, q, i, name) :: Before(q, p) || (q == p && i <= r)
  {
    hide Before;
    p, r := "", 0;
    if ids != [] {
      var init, last := ids[..|ids| - 1], ids[|ids| - 1];
      assert ids == init + [last] && last in ids;
      assert forall id | id in init :: id in ids && Before(id, last);
      p, r := CataloguedAllLast(init, parts, name);
      var k := CataloguedLast(parts[last].services, CataloguedAll(init, parts), name);
      if exists i :: 0 <= i < |parts[last].services| && parts[last].services[i].id == name {
        p, r := last, k;
        assert DeclaresAt(parts, last, k, name);
      } else {
        assert forall i: nat :: !DeclaresAt(parts, last, i, name);
      }
    }
  }

  predicate DeclaresAt(parts: map<string, Part>, p: string, r: nat, name: string) {
    p in parts && r < |parts[p].services| && parts[p].services[r].id == name
  }

  lemma DeclaredAt(w: World, pins: seq<Pin>, copies: map<string, Copy>, pin: Pin, r: nat, name: string)
    requires pin in pins
    ensures ServiceAt(w, pins, copies, pin, r, name) <==> DeclaresAt(PartsOf(w, pins, copies), pin.id, r, name)
    ensures ServiceAt(w, pins, copies, pin, r, name) ==>
              PartsOf(w, pins, copies)[pin.id].services[r]
                == DeclaredOf(Rows(ManifestOf(w, pin, copies).value, "service")[r])
  {
    PartsOfPinned(w, pins, copies, pin.id);
    assert PinnedAs(pins, pin.id);
    if pin.id in copies && copies[pin.id].manifest.Some? && w.parse(copies[pin.id].manifest.value).Some? {
      var rows := Rows(w.parse(copies[pin.id].manifest.value).value, "service");
      if r < |rows| {
        DeclaredReads(rows[r]);
      }
    }
  }

  lemma PinOf(w: World, pins: seq<Pin>, copies: map<string, Copy>, p: string) returns (pin: Pin)
    requires p in PartsOf(w, pins, copies)
    ensures pin in pins && pin.id == p
  {
    PartsOfPinned(w, pins, copies, p);
    pin :| pin in pins && pin.id == p;
  }

  /** The catalogue answers a name with the service that stands for it, where any is called so. */
  lemma CatalogueStands(w: World, pins: seq<Pin>, copies: map<string, Copy>, name: string)
    returns (pin: Pin, r: nat)
    ensures var services := Catalogue(PartsOf(w, pins, copies));
            && (name in services <==> exists one, q: nat :: ServiceAt(w, pins, copies, one, q, name))
            && (name in services ==>
                  && Stands(w, pins, copies, pin, r, name)
                  && services[name] == DeclaredOf(Rows(ManifestOf(w, pin, copies).value, "service")[r]))
  {
    hide Before, PartsOf, ServiceAt, SortedTexts;
    var parts := PartsOf(w, pins, copies);
    var ids := SortedTexts(parts.Keys);
    pin := Pin("", "", None, "", "", None, [], None, None, None);
    var p;
    p, r := CataloguedAllLast(ids, parts, name);
    forall one, q: nat | ServiceAt(w, pins, copies, one, q, name)
      ensures one.id in ids && DeclaresAt(parts, one.id, q, name)
    {
      InPins(w, pins, copies, one, q, name);
      DeclaredAt(w, pins, copies, one, q, name);
    }
    if name in CataloguedAll(ids, parts) {
      pin := PinOf(w, pins, copies, p);
      DeclaredAt(w, pins, copies, pin, r, name);
    }
  }

  lemma InPins(w: World, pins: seq<Pin>, copies: map<string, Copy>, pin: Pin, r: nat, name: string)
    requires ServiceAt(w, pins, copies, pin, r, name)
    ensures pin in pins
  {
  }

  // ------------------------------------------------------- a wiring row

  /** Whether a contract as a service speaks it is of the capability, at any version of it. */
  predicate SpokenFor(spoken: string, capability: string) {
    '@' !in capability && (spoken == capability || StartsWith(spoken, capability + "@"))
  }

  lemma {:induction false} FirstPiece(s: string, sep: char, first: string)
    ensures Split(s, sep)[0] == first <==> sep !in first && (s == first || StartsWith(s, first + [sep]))
  {
    if s != "" {
      if s[0] == sep {
        assert Split(s, sep)[0] == "";
        if StartsWith(s, first + [sep]) && first != "" {
          assert s[0] == (first + [sep])[0] == first[0];
        }
      } else if first != "" {
        FirstPiece(s[1..], sep, first[1..]);
        assert Split(s, sep)[0] == [s[0]] + Split(s[1..], sep)[0];
        assert first == [first[0]] + first[1..] && s == [s[0]] + s[1..];
        assert first + [sep] == [first[0]] + (first[1..] + [sep]);
      } else {
        assert Split(s, sep)[0] != "";
        assert ("" + [sep])[0] == sep;
      }
    }
  }

  /** Whether a service's row provides the capability, or speaks some contract of it. */
  ghost predicate Offers(row: Value, capability: string) {
    || Lists(row, "provides", capability)
    || exists spoken :: Lists(row, "speaks", spoken) && SpokenFor(spoken, capability)
  }

  lemma OffersRead(row: Value, capability: string)
    ensures Offers(row, capability)
       <==> capability in DeclaredOf(row).providing || SpeaksOf(DeclaredOf(row), capability)
  {
    DeclaredReads(row);
    forall spoken
      ensures Split(spoken, '@')[0] == capability <==> SpokenFor(spoken, capability)
    {
      FirstPiece(spoken, '@', capability);
      assert capability + ['@'] == capability + "@";
    }
    hide Split, DeclaredOf, Lists, SpokenFor;
  }

  /** Whether any pinned part has a service called `name`. */
  ghost predicate Called(w: World, pins: seq<Pin>, copies: map<string, Copy>, name: string) {
    exists pin, r: nat :: ServiceAt(w, pins, copies, pin, r, name)
  }

  /** Whether some pinned part's manifest has a row that makes the ask once. */
  ghost predicate AskedBy(w: World, pins: seq<Pin>, copies: map<string, Copy>, capability: string, maker: string) {
    exists pin, ask :: pin in pins && ManifestOf(w, pin, copies).Some?
                       && AsksOf(ManifestOf(w, pin, copies).value, ask, capability, maker)
  }

  ghost predicate FilledBy(w: World, pins: seq<Pin>, copies: map<string, Copy>, capability: string, filler: string) {
    exists pin, r: nat :: Stands(w, pins, copies, pin, r, filler)
                          && Offers(Rows(ManifestOf(w, pin, copies).value, "service")[r], capability)
  }

  /** A row of wiring is made by a service of some part, says why, is of one filler, and either
      chooses for an ask its maker makes once a service that offers what is asked, or links to a
      service by name. */
  ghost predicate WiringKept(w: World, wiring: Wiring, pins: seq<Pin>, copies: map<string, Copy>) {
    && Called(w, pins, copies, wiring.from)
    && wiring.why.Some? && (exists c :: c in wiring.why.value && !w.blank(c))
    && !wiring.each
    && if wiring.to.None? then
         && wiring.asks.Some? && wiring.filledBy.Some?
         && AskedBy(w, pins, copies, wiring.asks.value, wiring.from)
         && FilledBy(w, pins, copies, wiring.asks.value, wiring.filledBy.value)
       else wiring.asks.None? && wiring.filledBy.None? && Called(w, pins, copies, wiring.to.value)
  }

  lemma AskedByRead(w: World, pins: seq<Pin>, copies: map<string, Copy>, capability: string, maker: string)
    ensures var parts := PartsOf(w, pins, copies);
            (exists p | p in parts :: AsksOnce(parts[p], capability, maker))
              <==> AskedBy(w, pins, copies, capability, maker)
  {
    var parts := PartsOf(w, pins, copies);
    hide AsksOnce, AsksOf, DeclaredIn, PartsOf;
    if p :| p in parts && AsksOnce(parts[p], capability, maker) {
      var pin := PinOf(w, pins, copies, p);
      PartsOfPinned(w, pins, copies, p);
      AskedOnce(w, copies[p].manifest.value, capability, maker);
      var ask :| AsksOf(w.parse(copies[p].manifest.value).value, ask, capability, maker);
      assert AsksOf(ManifestOf(w, pin, copies).value, ask, capability, maker);
    }
    if pin, ask :| pin in pins && ManifestOf(w, pin, copies).Some?
                   && AsksOf(ManifestOf(w, pin, copies).value, ask, capability, maker) {
      assert PinnedAs(pins, pin.id);
      PartsOfPinned(w, pins, copies, pin.id);
      AskedOnce(w, copies[pin.id].manifest.value, capability, maker);
    }
  }

  lemma FilledByRead(w: World, pins: seq<Pin>, copies: map<string, Copy>, capability: string, filler: string)
    ensures Fills(Catalogue(PartsOf(w, pins, copies)), filler, capability)
       <==> FilledBy(w, pins, copies, capability, filler)
  {
    hide Catalogue, PartsOf, Offers, DeclaredOf, SpeaksOf, Before;
    var pin, r := CatalogueStands(w, pins, copies, filler);
    if filler in Catalogue(PartsOf(w, pins, copies)) {
      OffersRead(Rows(ManifestOf(w, pin, copies).value, "service")[r], capability);
    }
    if other, q: nat :| Stands(w, pins, copies, other, q, filler)
                        && Offers(Rows(ManifestOf(w, other, copies).value, "service")[q], capability) {
      StandsServes(w, pins, copies, other, q, filler);
      StandsOnce(w, pins, copies, pin, r, other, q, filler);
    }
  }

  lemma StandsServes(w: World, pins: seq<Pin>, copies: map<string, Copy>, pin: Pin, r: nat, name: string)
    requires Stands(w, pins, copies, pin, r, name)
    ensures ServiceAt(w, pins, copies, pin, r, name)
  {
  }

  lemma StandsOnce(w: World, pins: seq<Pin>, copies: map<string, Copy>, pin: Pin, r: nat, other: Pin, q: nat,
                   name: string)
    requires Stands(w, pins, copies, pin, r, name) && Stands(w, pins, copies, other, q, name)
    ensures ManifestOf(w, pin, copies) == ManifestOf(w, other, copies) && r == q
  {
    BeforeStrict(pin.id);
    if Before(other.id, pin.id) && Before(pin.id, other.id) {
      BeforeTransitive(pin.id, other.id, pin.id);
    }
    hide Before;
    assert ServiceAt(w, pins, copies, other, q, name) && ServiceAt(w, pins, copies, pin, r, name);
  }

  /** The rules find nothing broken in a row exactly where it is one of the two kinds. */
  lemma WiringRead(w: World, wiring: Wiring, pins: seq<Pin>, copies: map<string, Copy>)
    ensures var parts := PartsOf(w, pins, copies);
            WiringSound(w, wiring, parts, Catalogue(parts)) <==> WiringKept(w, wiring, pins, copies)
  {
    hide Catalogue, PartsOf, Fills, FilledBy, AskedBy, AsksOnce, Stands, ServiceAt;
    var pin, r := CatalogueStands(w, pins, copies, wiring.from);
    if wiring.to.Some? {
      pin, r := CatalogueStands(w, pins, copies, wiring.to.value);
    }
    if wiring.asks.Some? {
      AskedByRead(w, pins, copies, wiring.asks.value, wiring.from);
      if wiring.filledBy.Some? {
        FilledByRead(w, pins, copies, wiring.asks.value, wiring.filledBy.value);
      }
    }
  }
}
