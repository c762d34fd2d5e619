/** What becomes of the wiring: asks are put after the bundle's own rows and never twice, and every
    choice of filler left in the stack names one of its services. */
module BundleFillers {
  import opened Outcomes
  import opened Toml
  import opened Bundles
  import opened BundleChecker
  import opened Assembly
  import opened KeptParts
  import opened BundleSoundness

  // ------------------------------------------------------- asks

  /** Whether no row from `first` on makes the ask of a row before it. */
  ghost predicate NoneRepeated(wiring: seq<Value>, first: nat) {
    forall i, j | 0 <= i < j < |wiring| && first <= j :: !SameAsk(wiring[i], wiring[j])
  }

  ghost predicate Covered(wiring: seq<Value>, ask: Value) {
    exists row :: row in wiring && SameAsk(row, ask)
  }

  ghost predicate Asking(ask: Value) {
    Get(ask, "by").Some? && Get(ask, "asks").Some?
  }

  lemma CoveredOn(before: seq<Value>, all: seq<Value>, ask: Value)
    requires before <= all && Covered(before, ask)
    ensures Covered(all, ask)
  {
    var row :| row in before && SameAsk(row, ask);
    assert row in all;
  }

  lemma {:induction false} WithAsksCover(wiring: seq<Value>, asks: seq<Value>, first: nat)
    requires forall ask | ask in asks :: Asking(ask)
    requires first <= |wiring| && NoneRepeated(wiring, first)
    ensures var all := WithAsks(wiring, asks);
            && wiring <= all
            && NoneRepeated(all, first)
            && (forall ask | ask in asks :: Covered(all, ask))
            && (forall k | |wiring| <= k < |all| :: all[k] in asks)
  {
    if asks != [] {
      var rest, last := asks[..|asks| - 1], asks[|asks| - 1];
      assert asks == rest + [last];
      WithAsksCover(wiring, rest, first);
      OneAskMore(WithAsks(wiring, rest), last, first);
      var before, all := WithAsks(wiring, rest), WithAsks(wiring, asks);
      forall ask | ask in asks
        ensures Covered(all, ask)
      {
        if ask in rest {
          CoveredOn(before, all, ask);
        }
      }
      assert last in asks;
    }
  }

  lemma OneAskMore(before: seq<Value>, ask: Value, first: nat)
    requires Asking(ask) && first <= |before| && NoneRepeated(before, first)
    ensures var all := WithAsk(before, ask);
            && (all == before || all == before + [ask])
            && NoneRepeated(all, first) && Covered(all, ask)
  {
    assert SameAsk(ask, ask);
    assert ask in before + [ask];
  }

  lemma {:induction false} AskRowsAsk(rows: seq<Value>, id: string)
    ensures forall ask | ask in AskRows(rows, id) :: Asking(ask) && Get(ask, "filled_by").None?
  {
    if rows != [] {
      AskRowsAsk(rows[..|rows| - 1], id);
    }
  }

  lemma {:induction false} AskRowsHold(rows: seq<Value>, id: string, ask: Value, capability: string)
    requires ask in rows && About(ask, id) && TextAt(ask, "capability") == Some(capability)
    ensures exists row :: row in AskRows(rows, id)
                          && Get(row, "by") == Some(Str(id)) && Get(row, "asks") == Some(Str(capability))
  {
    var rest, last := rows[..|rows| - 1], rows[|rows| - 1];
    assert rows == rest + [last];
    var all := AskRows(rows, id);
    if ask == last {
      var row := AskRow(id, last).value;
      assert all[|all| - 1] == row;
      assert Get(row, "by") == Some(Str(id)) && Get(row, "asks") == Some(Str(capability));
      assert row in all;
    } else {
      AskRowsHold(rest, id, ask, capability);
      var row :| row in AskRows(rest, id) && Get(row, "by") == Some(Str(id))
                 && Get(row, "asks") == Some(Str(capability));
      assert row in all;
    }
  }

  /** The asks an assembled part's service makes, as the rows its copy spells. */
  lemma ServiceAsks(w: World, one: Held)
    requires Service(w, one).Ok?
    ensures forall ask | ask in Service(w, one).value.1 :: Asking(ask) && Get(ask, "filled_by").None?
    ensures var id := AsStr(Field(Service(w, one).value.0, "id"));
            id.Some? && Service(w, one).value.1 == AskRows(Rows(w.parse(one.copy).value, "ask"), id.value)
  {
    var manifest := w.parse(one.copy).value;
    var written := Rows(manifest, "service")[0].table;
    var id := AsStr(Field(written - {"replaces"}, "id")).value;
    AskRowsAsk(Rows(manifest, "ask"), id);
    StackedKeeps(one, manifest, written, "id");
    if "id" in AsWritten(manifest, FROM_MANIFEST) {
      AsWrittenKeys(manifest, FROM_MANIFEST, "id");
    }
  }

  ghost predicate Written(w: World, one: Held) {
    one.pin.stage == Some(Stage.Assembled) && Service(w, one).Ok?
  }

  /** Whether some part of `held` is written as a service that makes `ask`. */
  ghost predicate Makes(w: World, held: seq<Held>, ask: Value) {
    exists one :: one in held && Written(w, one) && ask in Service(w, one).value.1
  }

  lemma MakesPush(w: World, held: seq<Held>, last: Held, ask: Value)
    ensures Makes(w, held + [last], ask)
       <==> Makes(w, held, ask) || (Written(w, last) && ask in Service(w, last).value.1)
  {
    hide Service;
    assert last in held + [last];
    if Makes(w, held, ask) {
      var one :| one in held && Written(w, one) && ask in Service(w, one).value.1;
      assert one in held + [last];
    }
  }

  /** Assembling any parts leaves the bundle's own rows as they were and first, covers every ask of
      every service it writes, and puts after them only asks, none of which a row before it made. */
  lemma {:induction false} AsksWired(w: World, wiring: seq<Value>, held: seq<Held>)
    ensures var all := Progressed(w, wiring, held).wiring;
            && wiring <= all
            && NoneRepeated(all, |wiring|)
            && (forall ask | Makes(w, held, ask) :: Covered(all, ask))
            && (forall k | |wiring| <= k < |all| :: Makes(w, held, all[k]))
  {
    hide Service, Makes, Covered;
    if held == [] {
      MakesNothing(w);
    } else {
      var rest, last := held[..|held| - 1], held[|held| - 1];
      assert held == rest + [last];
      AsksWired(w, wiring, rest);
      var before, all := Progressed(w, wiring, rest).wiring, Progressed(w, wiring, held).wiring;
      var asks := if Written(w, last) then Service(w, last).value.1 else [];
      if Written(w, last) {
        ServiceAsks(w, last);
      }
      WithAsksCover(before, asks, |wiring|);
      assert all == WithAsks(before, asks);
      forall ask | Makes(w, held, ask)
        ensures Covered(all, ask)
      {
        MakesPush(w, rest, last, ask);
        if ask !in asks {
          CoveredOn(before, all, ask);
        }
      }
      forall k | |wiring| <= k < |all|
        ensures Makes(w, held, all[k])
      {
        MakesPush(w, rest, last, all[k]);
        if k < |before| {
          assert all[k] == before[k];
        }
      }
    }
  }

  lemma MakesNothing(w: World)
    ensures forall ask :: !Makes(w, [], ask)
  {
  }

  /** Every ask an assembled part's manifest makes of a capability for its service has a row of that
      asker and capability. */
  lemma EveryAskWired(w: World, wiring: seq<Value>, held: seq<Held>, one: Held, ask: Value, capability: string)
    requires one in held && Written(w, one)
    requires var id := AsStr(Field(Service(w, one).value.0, "id")); id.Some? && About(ask, id.value)
    requires w.parse(one.copy).Some? && ask in Rows(w.parse(one.copy).value, "ask")
    requires TextAt(ask, "capability") == Some(capability)
    ensures exists row :: row in Progressed(w, wiring, held).wiring
              && TextAt(row, "by") == AsStr(Field(Service(w, one).value.0, "id"))
              && TextAt(row, "asks") == Some(capability)
  {
    hide Service, Progressed;
    ServiceAsks(w, one);
    var id := AsStr(Field(Service(w, one).value.0, "id")).value;
    var rows := Rows(w.parse(one.copy).value, "ask");
    AskRowsHold(rows, id, ask, capability);
    var made :| made in AskRows(rows, id) && Get(made, "by") == Some(Str(id))
                && Get(made, "asks") == Some(Str(capability));
    AsksWired(w, wiring, held);
    assert Makes(w, held, made);
    assert Covered(Progressed(w, wiring, held).wiring, made);
    var row :| row in Progressed(w, wiring, held).wiring && SameAsk(row, made);
  }

  // ------------------------------------------------------- fillers

  /** What a choice of filler names once every installed part of `held` has taken its services'. */
  ghost function FillerAfter(w: World, filler: string, held: seq<Held>): string {
    if held == [] then filler
    else
      var before := FillerAfter(w, filler, held[..|held| - 1]);
      var one := held[|held| - 1];
      if one.pin.stage == Some(Stage.Installed) && before in Serviced(w, one.copy) then one.pin.id else before
  }

  lemma RedirectFiller(row: Value, names: set<string>, id: string, key: string)
    ensures key != "filled_by" ==> Get(Redirect(row, names, id), key) == Get(row, key)
    ensures TextAt(Redirect(row, names, id), "filled_by") ==
              match TextAt(row, "filled_by")
              case None => None
              case Some(filler) => Some(if filler in names then id else filler)
  {
  }

  /** Keeping the parts changes nothing of a wiring row but its filler. */
  lemma {:induction false} RowAfter(w: World, start: Keeping, held: seq<Held>, k: nat, key: string)
    requires start.problems == [] && k < |start.wiring|
    requires forall one | one in held :: Ready(w, one)
    ensures |KeptSoFar(w, start, held).wiring| == |start.wiring|
    ensures var row := KeptSoFar(w, start, held).wiring[k];
            && (key != "filled_by" ==> Get(row, key) == Get(start.wiring[k], key))
            && TextAt(row, "filled_by") ==
                 match TextAt(start.wiring[k], "filled_by")
                 case None => None
                 case Some(filler) => Some(FillerAfter(w, filler, held))
  {
    hide StandingIn, Serviced, Ready;
    if held != [] {
      var rest, one := held[..|held| - 1], held[|held| - 1];
      assert one in held && forall h | h in rest :: h in held;
      RowAfter(w, start, rest, k, key);
      if one.pin.stage == Some(Stage.Installed) {
        StandingReady(w, one, "");
        RedirectFiller(KeptSoFar(w, start, rest).wiring[k], NameSet(Serviced(w, one.copy)), one.pin.id, key);
      }
    }
  }

  /** Whether some installed part's copy spells `name` as a service's id. */
  ghost predicate TakenOver(w: World, name: string, held: seq<Held>) {
    exists i :: 0 <= i < |held| && held[i].pin.stage == Some(Stage.Installed) && name in Serviced(w, held[i].copy)
  }

  /** A filler no installed part takes over stays what it was; any other ends at an installed part,
      however many parts rename it on the way. */
  lemma {:induction false} FillerEnds(w: World, filler: string, held: seq<Held>)
    ensures !TakenOver(w, filler, held) ==> FillerAfter(w, filler, held) == filler
    ensures TakenOver(w, filler, held) ==>
              Some(FillerAfter(w, filler, held)) in IdsAt(held, Stage.Installed)
  {
    if held != [] {
      var rest, last := held[..|held| - 1], held[|held| - 1];
      FillerEnds(w, filler, rest);
      assert held[|rest|] == last;
      assert forall i | 0 <= i < |rest| :: rest[i] == held[i];
    }
  }

  lemma {:induction false} NamedHolds(services: seq<Value>, name: string)
    ensures name in KeptParts.Named(services)
            <==> exists i :: 0 <= i < |services| && TextAt(services[i], "id") == Some(name)
  {
    if services != [] {
      var rest := services[..|services| - 1];
      NamedHolds(rest, name);
      assert forall i | 0 <= i < |rest| :: rest[i] == services[i];
    }
  }

  lemma ServicedHolds(w: World, one: Held, name: string)
    ensures name in Serviced(w, one.copy) <==>
              exists i :: 0 <= i < |ServiceRows(w, one)| && TextAt(ServiceRows(w, one)[i], "id") == Some(name)
  {
    NamedHolds(ServiceRows(w, one), name);
  }

  /** A name the catalogue of services holds, other than the empty one, is spelt by some held copy,
      by the very service the catalogue answers with. */
  lemma CataloguedSpelt(w: World, bundle: Bundle, copies: map<string, Copy>, name: string)
    returns (i: nat, r: nat)
    requires name in Catalogue(PartsOf(w, bundle.plugin, copies)) && name != ""
    ensures var held := HeldOf(bundle.plugin, copies);
            && i < |held| && r < |ServiceRows(w, held[i])|
            && TextAt(ServiceRows(w, held[i])[r], "id") == Some(name)
            && name in Serviced(w, held[i].copy)
            && Catalogue(PartsOf(w, bundle.plugin, copies))[name] == DeclaredOf(ServiceRows(w, held[i])[r])
  {
    hide Catalogue, Serviced, DeclaredIn, PartsOf, ServiceRows;
    var parts := PartsOf(w, bundle.plugin, copies);
    CatalogueHolds(parts, name);
    var found := Catalogue(parts)[name];
    var p :| p in parts && Declares(parts[p], found) && found.id == name;
    PartsOfPinned(w, bundle.plugin, copies, p);
    var pin :| pin in bundle.plugin && pin.id == p;
    i :| 0 <= i < |bundle.plugin| && bundle.plugin[i] == pin;
    var one := HeldOf(bundle.plugin, copies)[i];
    assert one.copy == copies[p].manifest.value;
    DeclaredRows(w, one);
    r :| 0 <= r < |parts[p].services| && parts[p].services[r] == found;
    assert found == DeclaredOf(ServiceRows(w, one)[r]);
    ServicedHolds(w, one, name);
  }

  /** The final row of the bundle's `k`th wiring row names the filler the parts leave it. */
  lemma FinalRow(w: World, text: string, table: Table, bundle: Bundle, copies: map<string, Copy>,
                 version: string, k: nat, key: string)
    requires Lawful(w) && w.parse(text) == Some(table) && Reads(table, bundle)
    requires bundle.schema == 2 && Sound(w, bundle, copies)
    requires k < |bundle.wiring|
    ensures var held := HeldOf(bundle.plugin, copies);
            var final := Rows(Final(w, table, held, version), "wiring");
            && k < |final|
            && (key != "filled_by" ==> Get(final[k], key) == Get(Rows(table, "wiring")[k], key))
            && TextAt(final[k], "filled_by") ==
                 match bundle.wiring[k].filledBy
                 case None => None
                 case Some(filler) => Some(FillerAfter(w, filler, held))
  {
    hide Sound, Ready, Final;
    var held := HeldOf(bundle.plugin, copies);
    HeldReady(w, bundle, copies);
    Composing(w, text, table, held, version);
    var rows := Rows(table, "wiring");
    AsksWired(w, rows, held);
    var progress := Progressed(w, rows, held);
    assert progress.wiring[k] == rows[k];
    RowAfter(w, Keeping(progress.wiring, progress.services, []), held, k, key);
    assert WiringOf(rows[k]) == Some(bundle.wiring[k]);
  }

  /** Where the rules hold, the filler a choice ends with names a service of the written stack exactly
      where the bundle named it at all, or an installed copy spells an empty id: the rules read a
      service that gives no id as one whose id is empty, and keeping the parts does not. */
  lemma FillersNameServices(w: World, text: string, table: Table, bundle: Bundle, copies: map<string, Copy>,
                            version: string, k: nat)
    requires Lawful(w) && w.parse(text) == Some(table) && Reads(table, bundle)
    requires bundle.schema == 2 && Sound(w, bundle, copies)
    requires k < |bundle.wiring| && bundle.wiring[k].filledBy.Some?
    ensures var held := HeldOf(bundle.plugin, copies);
            var filler := bundle.wiring[k].filledBy.value;
            var stack := Final(w, table, held, version);
            && Composed(w, text, held, version) == Ok(w.printed(stack))
            && k < |Rows(stack, "wiring")|
            && TextAt(Rows(stack, "wiring")[k], "filled_by").Some?
            && var named := TextAt(Rows(stack, "wiring")[k], "filled_by");
               (named in Ids(Rows(stack, "service")) <==> filler != "" || TakenOver(w, "", held))
  {
    var held := HeldOf(bundle.plugin, copies);
    var filler := bundle.wiring[k].filledBy.value;
    HeldReady(w, bundle, copies);
    Composing(w, text, table, held, version);
    FinalRow(w, text, table, bundle, copies, version, k, "by");
    var last := FillerAfter(w, filler, held);
    FillerEnds(w, filler, held);
    FillerNamed(w, bundle, copies, k);
  }

  lemma FillerNamed(w: World, bundle: Bundle, copies: map<string, Copy>, k: nat)
    requires bundle.schema == 2 && Sound(w, bundle, copies)
    requires k < |bundle.wiring| && bundle.wiring[k].filledBy.Some?
    ensures var held := HeldOf(bundle.plugin, copies);
            var filler := bundle.wiring[k].filledBy.value;
            var ids := IdsAt(held, Stage.Assembled) + IdsAt(held, Stage.Installed);
            Some(FillerAfter(w, filler, held)) in ids <==> filler != "" || TakenOver(w, "", held)
  {
    var held := HeldOf(bundle.plugin, copies);
    var filler := bundle.wiring[k].filledBy.value;
    var ids := IdsAt(held, Stage.Assembled) + IdsAt(held, Stage.Installed);
    FillerEnds(w, filler, held);
    HeldReady(w, bundle, copies);
    if TakenOver(w, filler, held) {
      assert Some(FillerAfter(w, filler, held)) in ids;
    } else if filler != "" {
      ChosenCatalogued(w, bundle, copies, k);
      var i, r := CataloguedSpelt(w, bundle, copies, filler);
      NotTakenOver(w, held, i, r, filler);
      IdsAtHold(held, Stage.Assembled, Some(filler));
    } else {
      EmptyIdNowhere(w, held);
    }
  }

  lemma ChosenCatalogued(w: World, bundle: Bundle, copies: map<string, Copy>, k: nat)
    requires bundle.schema == 2 && Sound(w, bundle, copies)
    requires k < |bundle.wiring| && bundle.wiring[k].filledBy.Some?
    ensures var services := Catalogue(PartsOf(w, bundle.plugin, copies));
            && bundle.wiring[k].asks.Some?
            && bundle.wiring[k].filledBy.value in services
            && Fills(services, bundle.wiring[k].filledBy.value, bundle.wiring[k].asks.value)
  {
    assert bundle.wiring[k] in bundle.wiring;
    assert PartsSound(w, bundle, copies);
    assert WiringSound(w, bundle.wiring[k], PartsOf(w, bundle.plugin, copies),
                       Catalogue(PartsOf(w, bundle.plugin, copies)));
  }

  /** A service no installed part spells is an assembled part's one, whose id is its pin's. */
  lemma NotTakenOver(w: World, held: seq<Held>, i: nat, r: nat, name: string)
    requires i < |held| && Ready(w, held[i])
    requires r < |ServiceRows(w, held[i])| && TextAt(ServiceRows(w, held[i])[r], "id") == Some(name)
    requires !TakenOver(w, name, held)
    ensures held[i].pin.stage == Some(Stage.Assembled) && held[i].pin.id == name
  {
    hide Ready, Serviced, ServiceRows;
    ServicedHolds(w, held[i], name);
    ReadyPin(w, held[i]);
    match held[i].pin.stage.value {
      case Installed =>
        assert false;
      case Assembled =>
        AssembledSpells(w, held[i], r, name);
    }
  }

  lemma AssembledSpells(w: World, one: Held, r: nat, name: string)
    requires Ready(w, one) && one.pin.stage == Some(Stage.Assembled)
    requires r < |ServiceRows(w, one)| && TextAt(ServiceRows(w, one)[r], "id") == Some(name)
    ensures one.pin.id == name
  {
    hide ServiceRows, DeclaredIn;
    DeclaredRows(w, one);
  }

  lemma EmptyIdNowhere(w: World, held: seq<Held>)
    requires forall one | one in held :: Ready(w, one)
    ensures Some("") !in IdsAt(held, Stage.Assembled) + IdsAt(held, Stage.Installed)
  {
    hide Ready;
    forall one | one in held
      ensures one.pin.id != ""
    {
      ReadyPin(w, one);
    }
    IdsAtHold(held, Stage.Assembled, Some(""));
    IdsAtHold(held, Stage.Installed, Some(""));
  }

  /** Every filler left in the written stack names one of its services, wherever the bundle's choices
      each name one at all. */
  lemma EveryFillerNamesAService(w: World, text: string, table: Table, bundle: Bundle,
                                 copies: map<string, Copy>, version: string, k: nat)
    requires Lawful(w) && w.parse(text) == Some(table) && Reads(table, bundle)
    requires bundle.schema == 2 && Sound(w, bundle, copies)
    requires forall one | one in bundle.wiring :: one.filledBy != Some("")
    requires var held := HeldOf(bundle.plugin, copies);
             k < |Rows(Final(w, table, held, version), "wiring")|
             && TextAt(Rows(Final(w, table, held, version), "wiring")[k], "filled_by").Some?
    ensures var stack := Final(w, table, HeldOf(bundle.plugin, copies), version);
            && Composed(w, text, HeldOf(bundle.plugin, copies), version) == Ok(w.printed(stack))
            && TextAt(Rows(stack, "wiring")[k], "filled_by") in Ids(Rows(stack, "service"))
  {
    hide Final, Sound, Ready, Progressed, KeptSoFar;
    var held := HeldOf(bundle.plugin, copies);
    HeldReady(w, bundle, copies);
    Composing(w, text, table, held, version);
    if k < |bundle.wiring| {
      FinalRow(w, text, table, bundle, copies, version, k, "by");
      assert bundle.wiring[k] in bundle.wiring;
      FillersNameServices(w, text, table, bundle, copies, version, k);
    } else {
      var rows := Rows(table, "wiring");
      var progress := Progressed(w, rows, held);
      AsksWired(w, rows, held);
      assert Makes(w, held, progress.wiring[k]);
      var one :| one in held && Written(w, one) && progress.wiring[k] in Service(w, one).value.1;
      ServiceAsks(w, one);
      RowAfter(w, Keeping(progress.wiring, progress.services, []), held, k, "by");
    }
  }
}
