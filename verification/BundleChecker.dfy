/** The bundle's own tables against the parts it pins, and all the rules together. */
module BundleChecker {
  import opened Outcomes
  import opened Sorting
  import opened Texts
  import opened Toml
  import opened Recognisers
  import opened Bundles
  import opened BundleRules

  // ------------------------------------------------------- every service declared

  /** The services declared so far by id, each later one in place of an earlier of its id. */
  function Catalogued(services: seq<Declared>, given: map<string, Declared>): map<string, Declared> {
    if services == [] then given
    else
      var last := services[|services| - 1];
      Catalogued(services[..|services| - 1], given)[last.id := last]
  }

  function CataloguedAll(ids: seq<string>, parts: map<string, Part>): map<string, Declared>
    requires forall id | id in ids :: id in parts
  {
    if ids == [] then map[]
    else
      Catalogued(parts[ids[|ids| - 1]].services, CataloguedAll(ids[..|ids| - 1], parts))
  }

  function Catalogue(parts: map<string, Part>): map<string, Declared> {
    CataloguedAll(SortedTexts(parts.Keys), parts)
  }

  ghost predicate Declares(part: Part, one: Declared) {
    one in part.services
  }

  lemma {:induction false} CataloguedHolds(services: seq<Declared>, given: map<string, Declared>, id: string)
    ensures id in Catalogued(services, given) <==> id in given || exists one :: one in services && one.id == id
    ensures id in Catalogued(services, given) ==>
              var found := Catalogued(services, given)[id];
              (found in services && found.id == id) || (id in given && found == given[id])
  {
    if services != [] {
      var rest := services[..|services| - 1];
      assert services == rest + [services[|services| - 1]];
      CataloguedHolds(rest, given, id);
    }
  }

  lemma {:induction false} CataloguedAllHolds(ids: seq<string>, parts: map<string, Part>, id: string)
    requires forall p | p in ids :: p in parts
    ensures id in CataloguedAll(ids, parts) <==>
              exists p, one :: p in ids && Declares(parts[p], one) && one.id == id
    ensures id in CataloguedAll(ids, parts) ==>
              exists p :: p in ids && Declares(parts[p], CataloguedAll(ids, parts)[id])
                          && CataloguedAll(ids, parts)[id].id == id
  {
    if ids != [] {
      var rest, last := ids[..|ids| - 1], ids[|ids| - 1];
      assert ids == rest + [last];
      CataloguedAllHolds(rest, parts, id);
      CataloguedHolds(parts[last].services, CataloguedAll(rest, parts), id);
      if exists p, one :: p in ids && Declares(parts[p], one) && one.id == id {
        var p, one :| p in ids && Declares(parts[p], one) && one.id == id;
        assert p in rest || p == last;
      }
      if one :| one in parts[last].services && one.id == id {
        assert Declares(parts[last], one);
      }
      if id in CataloguedAll(ids, parts) {
        var found := CataloguedAll(ids, parts)[id];
        if found in parts[last].services && found.id == id {
          assert last in ids && Declares(parts[last], found);
        } else {
          var p :| p in rest && Declares(parts[p], found) && found.id == id;
          assert p in ids;
        }
      }
    }
  }

  /** The catalogue names exactly the services the parts declare. */
  lemma CatalogueHolds(parts: map<string, Part>, id: string)
    ensures id in Catalogue(parts) <==>
              exists p, one :: p in parts && Declares(parts[p], one) && one.id == id
    ensures id in Catalogue(parts) ==>
              exists p :: p in parts && Declares(parts[p], Catalogue(parts)[id]) && Catalogue(parts)[id].id == id
  {
    var ids := SortedTexts(parts.Keys);
    CataloguedAllHolds(ids, parts, id);
    assert forall p :: p in ids <==> p in parts;
  }

  method CataloguingPart(declared: seq<Declared>, given: map<string, Declared>)
    returns (services: map<string, Declared>)
    ensures services == Catalogued(declared, given)
  {
    services := given;
    for i := 0 to |declared|
      invariant services == Catalogued(declared[..i], given)
    {
      assert declared[..i + 1][..i] == declared[..i];
      services := services[declared[i].id := declared[i]];
    }
    assert declared[..|declared|] == declared;
  }

  method CataloguingAll(ids: seq<string>, parts: map<string, Part>) returns (services: map<string, Declared>)
    requires forall id | id in ids :: id in parts
    ensures services == CataloguedAll(ids, parts)
  {
    services := map[];
    for i := 0 to |ids|
      invariant services == CataloguedAll(ids[..i], parts)
    {
      assert ids[..i + 1][..i] == ids[..i];
      services := CataloguingPart(parts[ids[i]].services, services);
    }
    assert ids[..|ids|] == ids;
  }

  // ------------------------------------------------------- a wiring row

  /** Which service an ask is made by; none where the ask leaves it open and the part has several. */
  function Asker(part: Part, ask: Asked): Option<string> {
    if ask.service.Some? then ask.service
    else if |part.services| == 1 then Some(part.services[0].id)
    else None
  }

  predicate AsksOnce(part: Part, capability: string, maker: string) {
    exists ask | ask in part.asks ::
      ask.capability == capability && !ask.each && Asker(part, ask) == Some(maker)
  }

  predicate SpeaksOf(one: Declared, capability: string) {
    exists spoken | spoken in one.speaks :: Split(spoken, '@')[0] == capability
  }

  /** Whether the service `filler` names provides or speaks `capability`. */
  predicate Fills(services: map<string, Declared>, filler: string, capability: string) {
    && filler in services
    && (capability in services[filler].providing || SpeaksOf(services[filler], capability))
  }

  predicate ChoiceSound(wiring: Wiring, parts: map<string, Part>, services: map<string, Declared>) {
    match (wiring.asks, wiring.filledBy, wiring.to)
    case (Some(capability), Some(filler), None) =>
      && (exists p | p in parts :: AsksOnce(parts[p], capability, wiring.from))
      && Fills(services, filler, capability)
    case (None, None, Some(to)) => to in services
    case _ => false
  }

  predicate WiringSound(w: World, wiring: Wiring, parts: map<string, Part>, services: map<string, Declared>) {
    && wiring.from in services
    && wiring.why.Some? && !Blank(w, wiring.why.value)
    && !wiring.each
    && ChoiceSound(wiring, parts, services)
  }

  method Wired(w: World, wiring: Wiring, parts: map<string, Part>, services: map<string, Declared>,
               given: seq<Fault>)
    returns (broken: seq<Fault>)
    ensures |given| <= |broken|
    ensures |broken| == |given| <==> WiringSound(w, wiring, parts, services)
  {
    broken := given;
    if wiring.from !in services {
      broken := broken + [Fault(WiredFrom, wiring.from)];
    }
    if wiring.why.None? || Blank(w, wiring.why.value) {
      broken := broken + [Fault(NoWhy, wiring.from)];
    }
    if wiring.each {
      broken := broken + [Fault(Each, wiring.from)];
    }
    match (wiring.asks, wiring.filledBy, wiring.to) {
      case (Some(capability), Some(filler), None) =>
        if !exists p | p in parts :: AsksOnce(parts[p], capability, wiring.from) {
          broken := broken + [Fault(NotAskedOnce, wiring.from)];
        }
        if !Fills(services, filler, capability) {
          broken := broken + [Fault(NotFilled, wiring.from)];
        }
      case (None, None, Some(to)) =>
        if to !in services {
          broken := broken + [Fault(NotNamed, to)];
        }
      case _ =>
        broken := broken + [Fault(NeitherKind, wiring.from)];
    }
  }

  // ------------------------------------------------------- the tables

  ghost predicate ProfilesSound(profiles: seq<string>) {
    && (forall p | p in profiles :: IsId(p))
    && (forall i, j | 0 <= i < j < |profiles| :: profiles[i] != profiles[j])
  }

  ghost predicate FormsSound(forms: seq<Form>, profiles: set<string>) {
    && (forall form | form in forms :: IsId(form.id))
    && (forall i, j | 0 <= i < j < |forms| :: forms[i].id != forms[j].id)
    && (forall form | form in forms :: forall p | p in form.profiles :: p in profiles)
  }

  predicate RemovedSound(removed: Removed, parts: map<string, Part>) {
    && removed.id !in parts
    && (removed.replacedBy.Some? ==> removed.replacedBy.value in parts)
  }

  ghost predicate TablesSound(w: World, bundle: Bundle, parts: map<string, Part>) {
    && ProfilesSound(bundle.profile)
    && FormsSound(bundle.form, set p | p in bundle.profile)
    && (forall removed | removed in bundle.removed :: RemovedSound(removed, parts))
    && (forall wiring | wiring in bundle.wiring :: WiringSound(w, wiring, parts, Catalogue(parts)))
  }

  method ProfilesChecked(profiles: seq<string>, given: seq<Fault>) returns (seen: set<string>, broken: seq<Fault>)
    ensures |given| <= |broken|
    ensures |broken| == |given| <==> ProfilesSound(profiles)
    ensures ProfilesSound(profiles) ==> seen == set p | p in profiles
  {
    seen, broken := {}, given;
    for i := 0 to |profiles|
      invariant |given| <= |broken|
      invariant forall p :: p in seen <==> exists j :: 0 <= j < i && profiles[j] == p && IsId(p)
      invariant |broken| == |given| <==>
                  && (forall j | 0 <= j < i :: IsId(profiles[j]))
                  && (forall j, k | 0 <= j < k < i :: profiles[j] != profiles[k])
    {
      if !IsId(profiles[i]) || profiles[i] in seen {
        broken := broken + [Fault(ProfileTwice, profiles[i])];
      }
      if IsId(profiles[i]) {
        seen := seen + {profiles[i]};
      }
    }
  }

  method FormChecked(form: Form, profiles: set<string>, given: seq<Fault>) returns (broken: seq<Fault>)
    ensures |given| <= |broken|
    ensures |broken| == |given| <==> forall p | p in form.profiles :: p in profiles
  {
    broken := given;
    for i := 0 to |form.profiles|
      invariant |given| <= |broken|
      invariant |broken| == |given| <==> forall j | 0 <= j < i :: form.profiles[j] in profiles
    {
      if form.profiles[i] !in profiles {
        broken := broken + [Fault(FormProfile, form.profiles[i])];
      }
    }
  }

  method FormsChecked(forms: seq<Form>, profiles: set<string>, given: seq<Fault>) returns (broken: seq<Fault>)
    ensures |given| <= |broken|
    ensures |broken| == |given| <==> FormsSound(forms, profiles)
  {
    hide IsId;
    broken := given;
    var seen := {};
    for i := 0 to |forms|
      invariant |given| <= |broken|
      invariant forall id :: id in seen <==> exists j :: 0 <= j < i && forms[j].id == id && IsId(id)
      invariant |broken| == |given| <==>
                  && (forall j | 0 <= j < i :: IsId(forms[j].id))
                  && (forall j, k | 0 <= j < k < i :: forms[j].id != forms[k].id)
                  && (forall j | 0 <= j < i :: forall p | p in forms[j].profiles :: p in profiles)
    {
      var form := forms[i];
      if !IsId(form.id) || form.id in seen {
        broken := broken + [Fault(FormTwice, form.id)];
      }
      if IsId(form.id) {
        seen := seen + {form.id};
      }
      broken := FormChecked(form, profiles, broken);
    }
  }

  method RemovedChecked(all: seq<Removed>, parts: map<string, Part>, given: seq<Fault>)
    returns (broken: seq<Fault>)
    ensures |given| <= |broken|
    ensures |broken| == |given| <==> forall removed | removed in all :: RemovedSound(removed, parts)
  {
    broken := given;
    for i := 0 to |all|
      invariant |given| <= |broken|
      invariant |broken| == |given| <==> forall j | 0 <= j < i :: RemovedSound(all[j], parts)
    {
      if all[i].id in parts {
        broken := broken + [Fault(RemovedPinned, all[i].id)];
      }
      if all[i].replacedBy.Some? && all[i].replacedBy.value !in parts {
        broken := broken + [Fault(RemovedBy, all[i].id)];
      }
    }
  }

  method WiringChecked(w: World, all: seq<Wiring>, parts: map<string, Part>, services: map<string, Declared>,
                       given: seq<Fault>)
    returns (broken: seq<Fault>)
    ensures |given| <= |broken|
    ensures |broken| == |given| <==> forall wiring | wiring in all :: WiringSound(w, wiring, parts, services)
  {
    broken := given;
    for i := 0 to |all|
      invariant |given| <= |broken|
      invariant |broken| == |given| <==> forall j | 0 <= j < i :: WiringSound(w, all[j], parts, services)
    {
      broken := Wired(w, all[i], parts, services, broken);
    }
  }

  method Tables(w: World, bundle: Bundle, parts: map<string, Part>, given: seq<Fault>)
    returns (broken: seq<Fault>)
    ensures |given| <= |broken|
    ensures |broken| == |given| <==> TablesSound(w, bundle, parts)
  {
    var profiles;
    profiles, broken := ProfilesChecked(bundle.profile, given);
    broken := FormsChecked(bundle.form, profiles, broken);
    var services := CataloguingAll(SortedTexts(parts.Keys), parts);
    broken := RemovedChecked(bundle.removed, parts, broken);
    broken := WiringChecked(w, bundle.wiring, parts, services, broken);
  }

  // ------------------------------------------------------- every part

  /** The parts the pins' copies declare, by id. */
  ghost function PartsOf(w: World, pins: seq<Pin>, copies: map<string, Copy>): map<string, Part> {
    if pins == [] then map[]
    else
      var id := pins[|pins| - 1].id;
      var before := PartsOf(w, pins[..|pins| - 1], copies);
      if id in copies && copies[id].manifest.Some?
      then before[id := DeclaredIn(w, copies[id].manifest.value)]
      else before
  }

  lemma {:induction false} PartsOfPinned(w: World, pins: seq<Pin>, copies: map<string, Copy>, id: string)
    ensures id in PartsOf(w, pins, copies) <==>
              id in copies && copies[id].manifest.Some? && PinnedAs(pins, id)
    ensures id in PartsOf(w, pins, copies) ==>
              PartsOf(w, pins, copies)[id] == DeclaredIn(w, copies[id].manifest.value)
  {
    if pins != [] {
      var rest, last := pins[..|pins| - 1], pins[|pins| - 1];
      assert pins == rest + [last];
      assert last in pins;
      PartsOfPinned(w, rest, copies, id);
      assert PinnedAs(pins, id) <==> PinnedAs(rest, id) || last.id == id by {
        if PinnedAs(rest, id) {
          var pin :| pin in rest && pin.id == id;
          assert pin in pins;
        }
      }
    }
  }

  ghost predicate PinnedAs(pins: seq<Pin>, id: string) {
    exists pin :: pin in pins && pin.id == id
  }

  ghost predicate PinnedPartSound(w: World, pin: Pin, bundle: Bundle, copies: map<string, Copy>) {
    && CopySound(w, pin, copies)
    && PartSound(w, pin, DeclaredIn(w, copies[pin.id].manifest.value), bundle)
  }

  ghost predicate Unfencing(parts: map<string, Part>) {
    forall p | p in parts :: forall one | one in parts[p].services :: !one.fenced && !one.renders
  }

  ghost predicate PartsSound(w: World, bundle: Bundle, copies: map<string, Copy>) {
    && (forall pin | pin in bundle.plugin :: PinnedPartSound(w, pin, bundle, copies))
    && TablesSound(w, bundle, PartsOf(w, bundle.plugin, copies))
    && (bundle.fence.None? ==> Unfencing(PartsOf(w, bundle.plugin, copies)))
  }

  method OnePart(w: World, pin: Pin, bundle: Bundle, copies: map<string, Copy>, given: seq<Fault>)
    returns (part: Option<Part>, broken: seq<Fault>)
    ensures |given| <= |broken|
    ensures |broken| == |given| <==> PinnedPartSound(w, pin, bundle, copies)
    ensures part == if pin.id in copies && copies[pin.id].manifest.Some?
                    then Some(DeclaredIn(w, copies[pin.id].manifest.value)) else None
  {
    part, broken := Copied(w, pin, copies, given);
    if part.Some? {
      broken := Staged(w, pin, part.value, bundle, broken);
    }
  }

  method EachPart(w: World, bundle: Bundle, copies: map<string, Copy>, given: seq<Fault>)
    returns (parts: map<string, Part>, broken: seq<Fault>)
    ensures parts == PartsOf(w, bundle.plugin, copies)
    ensures |given| <= |broken|
    ensures |broken| == |given| <==> forall pin | pin in bundle.plugin :: PinnedPartSound(w, pin, bundle, copies)
  {
    hide PinnedPartSound, DeclaredIn;
    parts, broken := map[], given;
    var pins := bundle.plugin;
    for i := 0 to |pins|
      invariant parts == PartsOf(w, pins[..i], copies)
      invariant |given| <= |broken|
      invariant |broken| == |given| <==> forall j | 0 <= j < i :: PinnedPartSound(w, pins[j], bundle, copies)
    {
      var pin := pins[i];
      assert pins[..i + 1][..i] == pins[..i];
      var part;
      part, broken := OnePart(w, pin, bundle, copies, broken);
      if part.Some? {
        parts := parts[pin.id := part.value];
      }
    }
    assert pins[..|pins|] == pins;
  }

  method FencesChecked(parts: map<string, Part>, given: seq<Fault>) returns (broken: seq<Fault>)
    ensures |given| <= |broken|
    ensures |broken| == |given| <==> Unfencing(parts)
  {
    broken := given;
    var ids := parts.Keys;
    while ids != {}
      invariant ids <= parts.Keys
      invariant |given| <= |broken|
      invariant |broken| == |given| <==>
                  forall p | p in parts.Keys - ids ::
                    forall one | one in parts[p].services :: !one.fenced && !one.renders
      decreases |ids|
    {
      var id :| id in ids;
      ghost var before := |broken|;
      var services := parts[id].services;
      for i := 0 to |services|
        invariant before <= |broken|
        invariant |broken| == before <==> forall j | 0 <= j < i :: !services[j].fenced && !services[j].renders
      {
        if services[i].fenced || services[i].renders {
          broken := broken + [Fault(Unfenced, services[i].id)];
        }
      }
      ids := ids - {id};
    }
  }

  // ------------------------------------------------------- all the rules

  ghost predicate PinsOrdered(pins: seq<Pin>) {
    forall i | 0 < i < |pins| :: Before(pins[i - 1].id, pins[i].id)
  }

  /** Every rule of a bundle and its copies. */
  ghost predicate Sound(w: World, bundle: Bundle, copies: map<string, Copy>) {
    && bundle.schema in {1, 2}
    && PinsOrdered(bundle.plugin)
    && (forall pin | pin in bundle.plugin :: PinSound(w, pin))
    && (forall id | id in copies :: PinnedAs(bundle.plugin, id))
    && (bundle.fence.Some? ==> FenceSound(bundle.fence.value, bundle.schema))
    && (if bundle.schema == 1 then FirstSound(w, bundle, copies) else PartsSound(w, bundle, copies))
  }

  method PinsChecked(w: World, bundle: Bundle, given: seq<Fault>) returns (broken: seq<Fault>)
    ensures |given| <= |broken|
    ensures |broken| == |given| <==>
              PinsOrdered(bundle.plugin) && forall pin | pin in bundle.plugin :: PinSound(w, pin)
  {
    broken := given;
    var pins := bundle.plugin;
    for i := 0 to |pins|
      invariant |given| <= |broken|
      invariant |broken| == |given| <==> forall j | 0 < j < i :: Before(pins[j - 1].id, pins[j].id)
    {
      if i > 0 && !Before(pins[i - 1].id, pins[i].id) {
        broken := broken + [Fault(OutOfOrder, pins[i].id)];
      }
    }
    ghost var before := |broken|;
    for i := 0 to |pins|
      invariant before <= |broken|
      invariant |broken| == before <==> forall j | 0 <= j < i :: PinSound(w, pins[j])
    {
      broken := Pinned(w, pins[i], broken);
    }
  }

  method CopiesChecked(bundle: Bundle, copies: map<string, Copy>, given: seq<Fault>) returns (broken: seq<Fault>)
    ensures |given| <= |broken|
    ensures |broken| == |given| <==> forall id | id in copies :: PinnedAs(bundle.plugin, id)
  {
    broken := given;
    var named := set pin | pin in bundle.plugin :: pin.id;
    var ids := copies.Keys;
    while ids != {}
      invariant ids <= copies.Keys
      invariant |given| <= |broken|
      invariant |broken| == |given| <==> forall id | id in copies.Keys - ids :: PinnedAs(bundle.plugin, id)
      decreases |ids|
    {
      var id :| id in ids;
      assert id in named <==> PinnedAs(bundle.plugin, id);
      if id !in named {
        broken := broken + [Fault(NotPinned, id)];
      }
      ids := ids - {id};
    }
  }

  /** The faults of a bundle read together with its copies; an empty list is the same as `Sound`. */
  method Broken(w: World, bundle: Bundle, copies: map<string, Copy>) returns (broken: seq<Fault>)
    ensures broken == [] <==> Sound(w, bundle, copies)
  {
    broken := [];
    if bundle.schema !in {1, 2} {
      return [Fault(UnknownSchema, "")];
    }
    broken := PinsChecked(w, bundle, broken);
    broken := CopiesChecked(bundle, copies, broken);
    if bundle.fence.Some? {
      broken := Fenced(bundle.fence.value, bundle.schema, broken);
    }
    if bundle.schema == 1 {
      broken := First(w, bundle, copies, broken);
    } else {
      var parts;
      parts, broken := EachPart(w, bundle, copies, broken);
      broken := Tables(w, bundle, parts, broken);
      if bundle.fence.None? {
        broken := FencesChecked(parts, broken);
      }
    }
  }
}
