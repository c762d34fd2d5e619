/** A contract that grows by a minor leaves every plugin recorded against an earlier one as it was. */
module ContractGrowth {
  import opened Outcomes
  import opened Conformance

  // ------------------------------------------------- the recorded minor

  /** The recorded minor is one of the minors recorded, or none is; and none is above it. */
  lemma {:induction false} RecordedMinorMeans(owed: seq<Owing>, one: Owing, shelf: Shelf)
    ensures forall other | other in owed && Beside(other, one, shelf) ::
              other.case_.operation.since <= RecordedMinor(owed, one, shelf)
    ensures RecordedMinor(owed, one, shelf) > 0 ==>
              exists other :: other in owed && Beside(other, one, shelf)
                              && other.case_.operation.since == RecordedMinor(owed, one, shelf)
  {
    if owed != [] {
      var rest, last := owed[..|owed| - 1], owed[|owed| - 1];
      hide Beside;
      RecordedMinorMeans(rest, one, shelf);
      assert forall other :: other in owed <==> other in rest || other == last;
      if RecordedMinor(rest, one, shelf) > 0 {
        var other :| other in rest && Beside(other, one, shelf)
                     && other.case_.operation.since == RecordedMinor(rest, one, shelf);
        assert other in owed;
      }
      assert last in owed;
    }
  }

  /** Two lists with the same recordings beside `one` have one recorded minor. */
  lemma SameMinor(a: seq<Owing>, b: seq<Owing>, one: Owing, shelf: Shelf)
    requires forall other | Beside(other, one, shelf) :: other in a <==> other in b
    ensures RecordedMinor(a, one, shelf) == RecordedMinor(b, one, shelf)
  {
    hide Beside, RecordedMinor;
    RecordedMinorMeans(a, one, shelf);
    RecordedMinorMeans(b, one, shelf);
  }

  // ---------------------------------------------------------------- growth

  /** `published` with operations appended to the capability at `k`. */
  function Grown(published: seq<Capability>, k: nat, more: seq<Operation>): seq<Capability>
    requires k < |published|
  {
    published[k := published[k].(operations := published[k].operations + more)]
  }

  lemma {:induction false} EachKeyedConcat(a: seq<Operation>, b: seq<Operation>)
    ensures EachKeyed(a + b) == EachKeyed(a) + EachKeyed(b)
  {
    hide KeyedCases;
    if a == [] {
      assert a + b == b;
    } else {
      assert (a + b)[1..] == a[1..] + b;
      EachKeyedConcat(a[1..], b);
    }
  }

  lemma {:induction false} FittingConcat(a: seq<Case>, b: seq<Case>, files: seq<string>)
    ensures FittingIn(a + b, files) == FittingIn(a, files) + FittingIn(b, files)
  {
    if a == [] {
      assert a + b == b;
    } else {
      assert (a + b)[1..] == a[1..] + b;
      FittingConcat(a[1..], b, files);
    }
  }

  lemma {:induction false} OwingsConcat(speaker: Speaker, named: string, a: seq<Case>, b: seq<Case>)
    ensures Owings(speaker, named, a + b) == Owings(speaker, named, a) + Owings(speaker, named, b)
  {
    if a == [] {
      assert a + b == b;
    } else {
      assert (a + b)[1..] == a[1..] + b;
      OwingsConcat(speaker, named, a[1..], b);
    }
  }

  /** The cases growing a capability adds: those of the operations appended, and the one without
      the key where it had no operation before. */
  function NewCases(capability: Capability, more: seq<Operation>): seq<Case> {
    (if capability.operations == [] then Unkeyed(more) else []) + EachKeyed(more)
  }

  /** A grown capability has its cases in their order, and the new ones after them. */
  lemma CasesGrow(capability: Capability, more: seq<Operation>)
    ensures Cases(capability.(operations := capability.operations + more))
            == Cases(capability) + NewCases(capability, more)
  {
    var was := capability.operations;
    EachKeyedConcat(was, more);
    if was == [] {
      assert was + more == more;
    } else {
      assert (was + more)[0] == was[0];
    }
  }

  lemma {:induction false} PerMediaOf(operation: Operation, filed: seq<(string, Ask)>)
    ensures forall c | c in PerMedia(operation, filed) :: c.operation == operation
  {
    if filed != [] {
      PerMediaOf(operation, filed[1..]);
    }
  }

  lemma {:induction false} NewCasesOf(more: seq<Operation>)
    ensures forall c | c in EachKeyed(more) :: c.operation in more
    ensures forall c | c in Unkeyed(more) :: c.operation in more
  {
    if more != [] {
      NewCasesOf(more[1..]);
      PerMediaOf(more[0], more[0].filed);
    }
  }

  lemma {:induction false} FindGrown(published: seq<Capability>, k: nat, more: seq<Operation>, named: string)
    requires k < |published|
    ensures var was, now := Find(published, named), Find(Grown(published, k, more), named);
            || now == was
            || (was.Some? && now == Some(was.value.(operations := was.value.operations + more)))
  {
    hide Spoken;
    var grown := Grown(published, k, more);
    if k > 0 {
      FindGrown(published[1..], k - 1, more, named);
      assert grown[1..] == Grown(published[1..], k - 1, more);
    } else {
      assert grown[1..] == published[1..];
    }
  }

  /** What growing a capability adds to what one speaker owes for one contract. */
  function NewFor(speaker: Speaker, named: string, published: seq<Capability>, k: nat, more: seq<Operation>): seq<Owing>
    requires k < |published|
  {
    if Find(Grown(published, k, more), named) == Find(published, named) || Find(published, named).None? then []
    else Owings(speaker, named, FittingIn(NewCases(Find(published, named).value, more), speaker.files))
  }

  lemma OwedForGrows(speaker: Speaker, named: string, published: seq<Capability>, k: nat, more: seq<Operation>)
    requires k < |published|
    ensures OwedFor(speaker, named, Grown(published, k, more))
            == OwedFor(speaker, named, published) + NewFor(speaker, named, published, k, more)
  {
    hide Find, Owings, FittingIn, Cases, NewCases, Grown;
    FindGrown(published, k, more, named);
    var was := Find(published, named);
    if was.Some? && Find(Grown(published, k, more), named) != was {
      CasesGrow(was.value, more);
      FittingConcat(Cases(was.value), NewCases(was.value, more), speaker.files);
      OwingsConcat(speaker, named, FittingIn(Cases(was.value), speaker.files),
                   FittingIn(NewCases(was.value, more), speaker.files));
    }
  }

  /** Whether `one` is owed for an operation appended, among what `speakers` then owe. */
  ghost predicate New(one: Owing, speakers: seq<Speaker>, published: seq<Capability>, k: nat, more: seq<Operation>)
    requires k < |published|
  {
    exists s, n :: 0 <= s < |speakers| && 0 <= n < |speakers[s].speaks|
                   && one in NewFor(speakers[s], speakers[s].speaks[n], published, k, more)
  }

  lemma {:induction false} OwedByGrows(speaker: Speaker, speaks: seq<string>, published: seq<Capability>, k: nat,
                                       more: seq<Operation>, one: Owing)
    requires k < |published|
    ensures one in OwedBy(speaker, speaks, Grown(published, k, more))
            <==> one in OwedBy(speaker, speaks, published)
                 || exists n :: 0 <= n < |speaks| && one in NewFor(speaker, speaks[n], published, k, more)
  {
    hide OwedFor, NewFor, Grown;
    if speaks != [] {
      var init, last := speaks[..|speaks| - 1], speaks[|speaks| - 1];
      OwedByGrows(speaker, init, published, k, more, one);
      OwedForGrows(speaker, last, published, k, more);
      if n :| 0 <= n < |init| && one in NewFor(speaker, init[n], published, k, more) {
        assert speaks[n] == init[n];
      }
      if n :| 0 <= n < |speaks| && one in NewFor(speaker, speaks[n], published, k, more) {
        assert n < |init| ==> speaks[n] == init[n];
      }
    }
  }

  /** Growing a capability takes away nothing that was owed, and adds the new. */
  lemma {:induction false} OwedGrows(speakers: seq<Speaker>, published: seq<Capability>, k: nat, more: seq<Operation>,
                                     one: Owing)
    requires k < |published|
    ensures one in Owed(speakers, Grown(published, k, more))
            <==> one in Owed(speakers, published) || New(one, speakers, published, k, more)
  {
    hide OwedBy, NewFor, Grown;
    if speakers != [] {
      var init, last := speakers[..|speakers| - 1], speakers[|speakers| - 1];
      OwedGrows(init, published, k, more, one);
      OwedByGrows(last, last.speaks, published, k, more, one);
      NewMore(init, last, published, k, more, one);
      assert init + [last] == speakers;
    }
  }

  lemma NewMore(init: seq<Speaker>, last: Speaker, published: seq<Capability>, k: nat, more: seq<Operation>, one: Owing)
    requires k < |published|
    ensures New(one, init + [last], published, k, more)
            <==> New(one, init, published, k, more)
                 || exists n :: 0 <= n < |last.speaks| && one in NewFor(last, last.speaks[n], published, k, more)
  {
    hide NewFor, Grown;
    var speakers := init + [last];
    if New(one, init, published, k, more) {
      var s, n :| 0 <= s < |init| && 0 <= n < |init[s].speaks|
                  && one in NewFor(init[s], init[s].speaks[n], published, k, more);
      assert speakers[s] == init[s];
    }
    if n :| 0 <= n < |last.speaks| && one in NewFor(last, last.speaks[n], published, k, more) {
      assert speakers[|init|] == last;
    }
    if New(one, speakers, published, k, more) {
      var s, n :| 0 <= s < |speakers| && 0 <= n < |speakers[s].speaks|
                  && one in NewFor(speakers[s], speakers[s].speaks[n], published, k, more);
      assert s < |init| ==> speakers[s] == init[s];
    }
  }

  lemma {:induction false} OwingsOf(speaker: Speaker, named: string, cases: seq<Case>, one: Owing)
    requires one in Owings(speaker, named, cases)
    ensures one.case_ in cases && one.service == speaker.service && one.contract == named
  {
    if one != Owings(speaker, named, cases)[0] {
      OwingsOf(speaker, named, cases[1..], one);
    }
  }

  lemma {:induction false} FittingOf(cases: seq<Case>, files: seq<string>, c: Case)
    requires c in FittingIn(cases, files)
    ensures c in cases
  {
    if c !in FittingIn(cases[1..], files) {
      assert c == cases[0];
    } else {
      FittingOf(cases[1..], files, c);
    }
  }

  lemma NewIsOfMore(one: Owing, speakers: seq<Speaker>, published: seq<Capability>, k: nat, more: seq<Operation>)
    requires k < |published|
    requires New(one, speakers, published, k, more)
    ensures one.case_.operation in more
  {
    hide Find, Owings, FittingIn, EachKeyed, Unkeyed, Grown;
    var s, n :| 0 <= s < |speakers| && 0 <= n < |speakers[s].speaks|
                && one in NewFor(speakers[s], speakers[s].speaks[n], published, k, more);
    var was := Find(published, speakers[s].speaks[n]).value;
    OwingsOf(speakers[s], speakers[s].speaks[n], FittingIn(NewCases(was, more), speakers[s].files), one);
    FittingOf(NewCases(was, more), speakers[s].files, one.case_);
    NewCasesOf(more);
  }

  // ---------------------------------------------------------- compatibility

  /** A growth by a minor: what it adds has no recording, and was added above every minor that
      whoever speaks the contract was recorded against. */
  ghost predicate ByAMinor(speakers: seq<Speaker>, published: seq<Capability>, k: nat, more: seq<Operation>,
                           shelf: Shelf)
    requires k < |published|
  {
    forall one | New(one, speakers, published, k, more) ::
      && one.recording !in shelf.files
      && one.case_.operation.since > RecordedMinor(Owed(speakers, published), one, shelf)
  }

  lemma MinorKept(speakers: seq<Speaker>, published: seq<Capability>, k: nat, more: seq<Operation>, shelf: Shelf,
                  one: Owing)
    requires k < |published|
    requires ByAMinor(speakers, published, k, more, shelf)
    ensures RecordedMinor(Owed(speakers, Grown(published, k, more)), one, shelf)
            == RecordedMinor(Owed(speakers, published), one, shelf)
  {
    hide Owed, New, Grown, RecordedMinor;
    forall other | Beside(other, one, shelf)
      ensures other in Owed(speakers, Grown(published, k, more)) <==> other in Owed(speakers, published)
    {
      OwedGrows(speakers, published, k, more, other);
    }
    SameMinor(Owed(speakers, Grown(published, k, more)), Owed(speakers, published), one, shelf);
  }

  /** Growing a contract by a minor changes no verdict there was, and passes every case it adds. */
  lemma GrowthIsCompatible(speakers: seq<Speaker>, published: seq<Capability>, k: nat, more: seq<Operation>,
                           shelf: Shelf, one: Owing)
    requires k < |published|
    requires ByAMinor(speakers, published, k, more, shelf)
    requires one in Owed(speakers, Grown(published, k, more))
    ensures one in Owed(speakers, published) || one.case_.operation in more
    ensures Judge(Owed(speakers, Grown(published, k, more)), one, shelf)
            == if New(one, speakers, published, k, more) then Passed else Judge(Owed(speakers, published), one, shelf)
    ensures !New(one, speakers, published, k, more) ==> one in Owed(speakers, published)
  {
    hide Owed, New, Grown, RecordedMinor, VerdictOf;
    OwedGrows(speakers, published, k, more, one);
    MinorKept(speakers, published, k, more, shelf, one);
    if New(one, speakers, published, k, more) {
      NewIsOfMore(one, speakers, published, k, more);
    }
  }

  ghost predicate AllPass(speakers: seq<Speaker>, published: seq<Capability>, shelf: Shelf) {
    forall one | one in Owed(speakers, published) :: Judge(Owed(speakers, published), one, shelf) == Passed
  }

  /** One contract's growth: which capability, and what is appended to it. */
  datatype Growth = Growth(k: nat, more: seq<Operation>)

  /** The contracts published after each growth in turn. */
  function GrownBy(published: seq<Capability>, growths: seq<Growth>): seq<Capability>
    requires forall g | g in growths :: g.k < |published|
    ensures |GrownBy(published, growths)| == |published|
  {
    if growths == [] then published
    else
      var last := growths[|growths| - 1];
      Grown(GrownBy(published, growths[..|growths| - 1]), last.k, last.more)
  }

  ghost predicate EachByAMinor(speakers: seq<Speaker>, published: seq<Capability>, growths: seq<Growth>, shelf: Shelf)
    requires forall g | g in growths :: g.k < |published|
  {
    forall i | 0 <= i < |growths| ::
      ByAMinor(speakers, GrownBy(published, growths[..i]), growths[i].k, growths[i].more, shelf)
  }

  /** A plugin whose every case passes goes on passing, unchanged, through any number of minors. */
  lemma {:induction false} PassesThroughMinors(speakers: seq<Speaker>, published: seq<Capability>,
                                               growths: seq<Growth>, shelf: Shelf)
    requires forall g | g in growths :: g.k < |published|
    requires EachByAMinor(speakers, published, growths, shelf)
    requires AllPass(speakers, published, shelf)
    ensures AllPass(speakers, GrownBy(published, growths), shelf)
  {
    if growths != [] {
      hide Owed, New, Grown, Judge, ByAMinor;
      var init, last := growths[..|growths| - 1], growths[|growths| - 1];
      assert forall i | 0 <= i < |init| :: init[..i] == growths[..i];
      PassesThroughMinors(speakers, published, init, shelf);
      var was := GrownBy(published, init);
      assert ByAMinor(speakers, was, last.k, last.more, shelf);
      forall one | one in Owed(speakers, GrownBy(published, growths))
        ensures Judge(Owed(speakers, GrownBy(published, growths)), one, shelf) == Passed
      {
        GrowthIsCompatible(speakers, was, last.k, last.more, shelf, one);
      }
    }
  }

  /** An unrecorded case passes exactly when it was added above every minor its adapter holds a
      recording of its contract for. */
  lemma UnrecordedPasses(owed: seq<Owing>, one: Owing, shelf: Shelf)
    requires one.recording !in shelf.files
    ensures Judge(owed, one, shelf) == Passed
            <==> one.case_.operation.since > 0
                 && forall other | other in owed && Beside(other, one, shelf) ::
                      other.case_.operation.since < one.case_.operation.since
  {
    hide Beside;
    RecordedMinorMeans(owed, one, shelf);
  }

  /** Whether `one` is accounted for: its recording shows what its case asks, or there is none and
      its operation is newer than every one its adapter has a recording of in that contract. */
  ghost predicate Accounted(owed: seq<Owing>, one: Owing, shelf: Shelf) {
    if one.recording in shelf.files
    then shelf.files[one.recording].Some? && Shows(one, shelf.files[one.recording].value, shelf.told)
    else
      && one.case_.operation.since > 0
      && forall other | other in owed && Beside(other, one, shelf) ::
           other.case_.operation.since < one.case_.operation.since
  }

  /** A plugin is judged to pass throughout exactly when everything it owes is accounted for. */
  lemma AllPassWhenAccounted(speakers: seq<Speaker>, published: seq<Capability>, shelf: Shelf)
    ensures var owed := Owed(speakers, published);
            (forall judged | judged in JudgedEach(owed, owed, shelf) :: judged.verdict == Passed)
              <==> forall one | one in owed :: Accounted(owed, one, shelf)
  {
    hide Owed, Judge, Beside, Shows;
    var owed := Owed(speakers, published);
    JudgedIn(owed, owed, shelf);
    forall one
      ensures Judge(owed, one, shelf) == Passed <==> Accounted(owed, one, shelf)
    {
      if one.recording in shelf.files {
        PassingShows(owed, one, shelf);
      } else {
        UnrecordedPasses(owed, one, shelf);
      }
    }
    var judged := JudgedEach(owed, owed, shelf);
    assert forall i | 0 <= i < |owed| :: judged[i] in judged && judged[i].verdict == Judge(owed, owed[i], shelf);
  }
}
