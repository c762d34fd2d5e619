/** Where a chosen filler provided what it was chosen for, the service the stack names in its place
    provides it too; where it only spoke it, that is lost. */
module BundleProviding {
  import opened Outcomes
  import opened Toml
  import opened Bundles
  import opened BundleChecker
  import opened Assembly
  import opened KeptParts
  import opened BundleSoundness
  import opened BundleFillers

  /** Whether no two parts' copies spell one service id. */
  ghost predicate IdsApart(w: World, held: seq<Held>) {
    forall i, j | 0 <= i < |held| && 0 <= j < |held| && i != j ::
      forall name | name in Serviced(w, held[i].copy) :: name !in Serviced(w, held[j].copy)
  }

  /** A filler only the installed part `i` spells is redirected there, once and for good. */
  lemma {:induction false} FillerStays(w: World, held: seq<Held>, n: nat, i: nat, filler: string)
    requires IdsApart(w, held) && n <= |held| && i < |held|
    requires held[i].pin.stage == Some(Stage.Installed)
    requires filler in Serviced(w, held[i].copy) && held[i].pin.id in Serviced(w, held[i].copy)
    ensures FillerAfter(w, filler, held[..n]) == if i < n then held[i].pin.id else filler
  {
    hide Serviced;
    if n > 0 {
      FillerStays(w, held, n - 1, i, filler);
      assert held[..n][..n - 1] == held[..n - 1];
    }
  }

  lemma PinSpelt(w: World, one: Held)
    requires Ready(w, one)
    ensures one.pin.id in Serviced(w, one.copy)
  {
    ServicedHolds(w, one, one.pin.id);
    DeclaredRows(w, one);
    match one.pin.stage.value {
      case Assembled =>
        assert Or(TextAt(ServiceRows(w, one)[0], "id"), "") == one.pin.id;
      case Installed =>
        var found, j := FoundReady(w, one);
    }
  }

  /** With no service id in two parts, a filler ends at the part whose copy spells it. */
  lemma FillerLands(w: World, held: seq<Held>, i: nat, filler: string)
    requires forall one | one in held :: Ready(w, one)
    requires IdsApart(w, held) && i < |held| && filler in Serviced(w, held[i].copy)
    ensures FillerAfter(w, filler, held) == held[i].pin.id
  {
    hide Serviced;
    assert held[i] in held;
    match held[i].pin.stage.value {
      case Installed =>
        PinSpelt(w, held[i]);
        FillerStays(w, held, |held|, i, filler);
        assert held[..|held|] == held;
      case Assembled =>
        FillerEnds(w, filler, held);
        assert !TakenOver(w, filler, held);
        ServicedHolds(w, held[i], filler);
        var r :| 0 <= r < |ServiceRows(w, held[i])| && TextAt(ServiceRows(w, held[i])[r], "id") == Some(filler);
        NotTakenOver(w, held, i, r, filler);
    }
  }

  lemma {:induction false} ServiceThere(w: World, wiring: seq<Value>, held: seq<Held>, i: nat)
    requires forall one | one in held :: Ready(w, one)
    requires i < |held| && held[i].pin.stage == Some(Stage.Assembled)
    ensures Service(w, held[i]).Ok?
    ensures Tab(Service(w, held[i]).value.0) in Progressed(w, wiring, held).services
  {
    hide Service, Ready;
    var rest, last := held[..|held| - 1], held[|held| - 1];
    assert held[i] in held && last in held && forall h | h in rest :: h in held;
    ServiceReady(w, held[i]);
    if i < |rest| {
      assert rest[i] == held[i];
      ServiceThere(w, wiring, rest, i);
    }
    if last.pin.stage == Some(Stage.Assembled) {
      ServiceReady(w, last);
    }
  }

  lemma {:induction false} StandingThere(w: World, start: Keeping, held: seq<Held>, i: nat)
    requires forall one | one in held :: Ready(w, one)
    requires i < |held| && held[i].pin.stage == Some(Stage.Installed)
    ensures StandingIn(w, held[i]).Ok?
    ensures Tab(StandingIn(w, held[i]).value) in KeptSoFar(w, start, held).services
  {
    hide StandingIn, Ready, Serviced;
    var rest, last := held[..|held| - 1], held[|held| - 1];
    assert held[i] in held && last in held && forall h | h in rest :: h in held;
    StandingReady(w, held[i], "");
    if i < |rest| {
      assert rest[i] == held[i];
      StandingThere(w, start, rest, i);
    }
    if last.pin.stage == Some(Stage.Installed) {
      StandingReady(w, last, "");
    }
  }

  /** The service of the written stack that stands for the part `i`: under its pin's id, providing a
      capability exactly where some service of the part does. */
  lemma PartInStack(w: World, text: string, table: Table, held: seq<Held>, version: string, i: nat,
                    capability: string)
    returns (service: Value)
    requires Lawful(w) && w.parse(text) == Some(table)
    requires forall one | one in held :: Ready(w, one)
    requires i < |held|
    ensures service in Rows(Final(w, table, held, version), "service")
    ensures TextAt(service, "id") == Some(held[i].pin.id)
    ensures Str(capability) in AsArray(Get(service, "provides"))
       <==> AnyProvides(ServiceRows(w, held[i]), capability)
  {
    hide Service, StandingIn, Final, ServiceRows, Ready;
    assert held[i] in held;
    Composing(w, text, table, held, version);
    var progress := Progressed(w, Rows(table, "wiring"), held);
    var start := Keeping(progress.wiring, progress.services, []);
    ProgressedReady(w, Rows(table, "wiring"), held);
    KeptReady(w, start, held);
    ReadyPin(w, held[i]);
    match held[i].pin.stage.value {
      case Assembled =>
        ServiceThere(w, Rows(table, "wiring"), held, i);
        ServiceReady(w, held[i]);
        service := Tab(Service(w, held[i]).value.0);
        var k :| 0 <= k < |progress.services| && progress.services[k] == service;
        assert KeptSoFar(w, start, held).services[k] == service;
        OneRowProvides(ServiceRows(w, held[i]), capability);
      case Installed =>
        StandingThere(w, start, held, i);
        StandingReady(w, held[i], capability);
        service := Tab(StandingIn(w, held[i]).value);
    }
  }

  lemma OneRowProvides(rows: seq<Value>, capability: string)
    requires |rows| == 1
    ensures AnyProvides(rows, capability) <==> Str(capability) in AsArray(Get(rows[0], "provides"))
  {
  }

  /** Where the rules hold and no service id is in two parts, the service a choice of filler ends with
      provides what it was chosen for exactly where some service of the chosen filler's own part does:
      always where the filler provided it, and not where the part's services only speak it. */
  lemma ChosenFillerProvides(w: World, text: string, table: Table, bundle: Bundle, copies: map<string, Copy>,
                             version: string, k: nat)
    returns (i: nat, service: Value)
    requires Lawful(w) && w.parse(text) == Some(table) && Reads(table, bundle)
    requires bundle.schema == 2 && Sound(w, bundle, copies)
    requires IdsApart(w, HeldOf(bundle.plugin, copies))
    requires k < |bundle.wiring| && bundle.wiring[k].filledBy.Some? && bundle.wiring[k].filledBy.value != ""
    ensures var held := HeldOf(bundle.plugin, copies);
            var stack := Final(w, table, held, version);
            var filler := bundle.wiring[k].filledBy.value;
            && bundle.wiring[k].asks.Some?
            && filler in Catalogue(PartsOf(w, bundle.plugin, copies))
            && i < |held| && filler in Serviced(w, held[i].copy)
            && service in Rows(stack, "service")
            && k < |Rows(stack, "wiring")|
            && TextAt(Rows(stack, "wiring")[k], "filled_by") == TextAt(service, "id") == Some(held[i].pin.id)
            && var provided := Str(bundle.wiring[k].asks.value) in AsArray(Get(service, "provides"));
               && (provided <==> AnyProvides(ServiceRows(w, held[i]), bundle.wiring[k].asks.value))
               && (bundle.wiring[k].asks.value in Catalogue(PartsOf(w, bundle.plugin, copies))[filler].providing
                   ==> provided)
  {
    hide *;
    var held := HeldOf(bundle.plugin, copies);
    var filler := bundle.wiring[k].filledBy.value;
    HeldReady(w, bundle, copies);
    ChosenCatalogued(w, bundle, copies, k);
    var capability := bundle.wiring[k].asks.value;
    var r;
    i, r := CataloguedSpelt(w, bundle, copies, filler);
    FillerLands(w, held, i, filler);
    FinalRow(w, text, table, bundle, copies, version, k, "by");
    service := PartInStack(w, text, table, held, version, i, capability);
    RowProvides(ServiceRows(w, held[i]), r, capability);
  }

  /** A row whose declared capabilities hold one provides it. */
  lemma RowProvides(rows: seq<Value>, r: nat, capability: string)
    requires r < |rows|
    ensures capability in DeclaredOf(rows[r]).providing ==> AnyProvides(rows, capability)
  {
    TextsHold(AsArray(Get(rows[r], "provides")), capability);
  }
}
