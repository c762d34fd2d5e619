/** What is asked, owed and judged of each contract, case by case and recording by recording. */
module ConformanceReads {
  import opened Outcomes
  import opened Digits
  import opened Placeholders
  import opened Conformance

  // ---------------------------------------------------------------- cases

  /** Whether `c` is the case that asks the first operation without the key. */
  predicate AsksUnkeyed(capability: Capability, c: Case) {
    && capability.operations != []
    && c == Case("refuses-without-the-key", capability.operations[0], false, Status([401]), true, "{}", None)
  }

  /** Whether `c` is what the operation is asked under the key: to refuse, to answer, or to answer for
      one kind of media it is bound to. */
  predicate AsksKeyed(operation: Operation, c: Case) {
    && c.operation == operation && c.keyed && !c.live
    && if operation.refused.Some? then
         && c.name == operation.name + "-refuses" && c.held == Status(operation.refused.value)
         && c.asks == operation.asks && c.mediaType.None?
       else if operation.filed == [] then
         && c.name == operation.name + "-answers" && c.held == Conforms
         && c.asks == operation.asks && c.mediaType.None?
       else
         && c.held == Conforms && c.mediaType.Some?
         && c.name == operation.name + "-answers-" + c.mediaType.value
         && (c.mediaType.value, c.asks) in operation.filed
  }

  lemma {:induction false} PerMediaMeans(operation: Operation, filed: seq<(string, Ask)>)
    requires operation.refused.None?
    ensures |PerMedia(operation, filed)| == |filed|
    ensures forall i | 0 <= i < |filed| ::
              PerMedia(operation, filed)[i]
                == Case(operation.name + "-answers-" + filed[i].0, operation, true, Conforms, false, filed[i].1,
                        Some(filed[i].0))
  {
    if filed != [] {
      PerMediaMeans(operation, filed[1..]);
      MediaName(operation.name, filed[0].0);
    }
  }

  lemma MediaName(name: string, media: string)
    ensures Answers(name) + "-" + media == name + "-answers-" + media
  {
    assert name + "-answers" + "-" == name + "-answers-";
  }

  lemma KeyedMeans(operation: Operation, c: Case)
    ensures c in KeyedCases(operation) <==> AsksKeyed(operation, c)
    ensures |KeyedCases(operation)| == if operation.refused.None? && operation.filed != [] then |operation.filed| else 1
  {
    if operation.refused.None? && operation.filed != [] {
      PerMediaMeans(operation, operation.filed);
      hide PerMedia;
      if AsksKeyed(operation, c) {
        var i :| 0 <= i < |operation.filed| && operation.filed[i] == (c.mediaType.value, c.asks);
        assert KeyedCases(operation)[i] == c;
      }
      if i :| 0 <= i < |KeyedCases(operation)| && KeyedCases(operation)[i] == c {
        assert operation.filed[i] in operation.filed;
      }
    }
  }

  /** How many cases under the key come before those of the `k`th operation. */
  function Earlier(operations: seq<Operation>, k: nat): nat
    requires k <= |operations|
  {
    if k == 0 then 0
    else
      var last := operations[k - 1];
      Earlier(operations, k - 1) + if last.refused.None? && last.filed != [] then |last.filed| else 1
  }

  lemma {:induction false} EachKeyedAt(operations: seq<Operation>, k: nat)
    requires k < |operations|
    ensures Earlier(operations, k) + |KeyedCases(operations[k])| <= |EachKeyed(operations)|
    ensures EachKeyed(operations)[Earlier(operations, k)..][..|KeyedCases(operations[k])|] == KeyedCases(operations[k])
  {
    hide KeyedCases;
    var first := KeyedCases(operations[0]);
    if k > 0 {
      EachKeyedAt(operations[1..], k - 1);
      EarlierRest(operations, k);
      assert EachKeyed(operations)[Earlier(operations, k)..]
             == EachKeyed(operations[1..])[Earlier(operations[1..], k - 1)..];
    }
  }

  lemma {:induction false} EarlierRest(operations: seq<Operation>, k: nat)
    requires 0 < k <= |operations|
    ensures Earlier(operations, k) == |KeyedCases(operations[0])| + Earlier(operations[1..], k - 1)
  {
    KeyedMeans(operations[k - 1], Case("", operations[0], false, Conforms, false, "", None));
    hide KeyedCases;
    if k > 1 {
      EarlierRest(operations, k - 1);
      assert operations[1..][k - 2] == operations[k - 1];
    }
  }

  /** The cases of a capability: the one without the key, then each operation's, and nothing else. */
  lemma {:induction false} CasesMean(operations: seq<Operation>, c: Case)
    ensures c in EachKeyed(operations) <==> exists operation :: operation in operations && AsksKeyed(operation, c)
  {
    hide KeyedCases, AsksKeyed;
    if operations != [] {
      CasesMean(operations[1..], c);
      KeyedMeans(operations[0], c);
      assert forall o :: o in operations <==> o == operations[0] || o in operations[1..];
    }
  }

  lemma CaseMeans(capability: Capability, c: Case)
    ensures c in Cases(capability)
       <==> AsksUnkeyed(capability, c)
            || exists operation :: operation in capability.operations && AsksKeyed(operation, c)
  {
    CasesMean(capability.operations, c);
    hide AsksKeyed, EachKeyed;
  }

  // ---------------------------------------------------------------- owed

  /** Whether `k` is the first capability published under `named`. */
  predicate PublishedAt(published: seq<Capability>, named: string, k: nat) {
    && k < |published| && named == published[k].name + "@" + Decimal(published[k].major)
    && forall j | 0 <= j < k :: named != published[j].name + "@" + Decimal(published[j].major)
  }

  /** A recording is owed by a service for a contract it speaks that is published, for a case of it
      that fits the media its upstream files, under the contract's and the case's names. */
  ghost predicate Owes(speaker: Speaker, published: seq<Capability>, one: Owing) {
    && one.service == speaker.service && one.pinned == speaker.pinned && one.contract in speaker.speaks
    && (exists k: nat :: PublishedAt(published, one.contract, k) && one.case_ in Cases(published[k]))
    && (one.case_.mediaType.Some? ==> one.case_.mediaType.value in speaker.files)
    && one.recording == "conformance/" + one.contract + "/" + one.case_.name + ".json"
  }

  lemma {:induction false} FindMeans(published: seq<Capability>, named: string)
    ensures forall k: nat | PublishedAt(published, named, k) :: Find(published, named) == Some(published[k])
    ensures Find(published, named).Some? ==> exists k: nat :: PublishedAt(published, named, k)
  {
    if published != [] {
      var rest := published[1..];
      FindMeans(rest, named);
      assert Spoken(published[0].name, published[0].major) == published[0].name + "@" + Decimal(published[0].major);
      hide Decimal, Spoken;
      forall k: nat | PublishedAt(published, named, k)
        ensures Find(published, named) == Some(published[k])
      {
        if k > 0 {
          assert forall j | 0 <= j < k - 1 :: rest[j] == published[j + 1];
          assert PublishedAt(rest, named, k - 1);
        }
      }
      if Find(published, named).Some? {
        if Spoken(published[0].name, published[0].major) == named {
          assert PublishedAt(published, named, 0);
        } else {
          var k: nat :| PublishedAt(rest, named, k);
          assert forall j | 0 < j <= k :: published[j] == rest[j - 1];
          assert PublishedAt(published, named, k + 1);
        }
      }
    }
  }

  lemma {:induction false} FittingMeans(cases: seq<Case>, files: seq<string>, c: Case)
    ensures c in FittingIn(cases, files) <==> c in cases && (c.mediaType.Some? ==> c.mediaType.value in files)
  {
    if cases != [] {
      FittingMeans(cases[1..], files, c);
    }
  }

  lemma {:induction false} OwingsMean(speaker: Speaker, named: string, cases: seq<Case>, one: Owing)
    ensures one in Owings(speaker, named, cases)
       <==> && one.service == speaker.service && one.pinned == speaker.pinned && one.contract == named
            && one.case_ in cases && one.recording == RecordingOf(named, one.case_.name)
  {
    hide RecordingOf;
    if cases != [] {
      OwingsMean(speaker, named, cases[1..], one);
    }
  }

  lemma RecordingName(contract: string, name: string)
    ensures RecordingOf(contract, name) == "conformance/" + contract + "/" + name + ".json"
  {
    assert "conformance" + "/" == "conformance/";
  }

  lemma OwedForMeans(speaker: Speaker, named: string, published: seq<Capability>, one: Owing)
    requires named in speaker.speaks
    ensures one in OwedFor(speaker, named, published) <==> one.contract == named && Owes(speaker, published, one)
  {
    FindMeans(published, named);
    RecordingName(named, one.case_.name);
    hide PublishedAt, Find, RecordingOf, Cases;
    if Find(published, named).Some? {
      var spoken := Find(published, named).value;
      OwingsMean(speaker, named, Filed(spoken, speaker.files), one);
      FittingMeans(Cases(spoken), speaker.files, one.case_);
    }
  }

  lemma {:induction false} OwedByMeans(speaker: Speaker, speaks: seq<string>, published: seq<Capability>, one: Owing)
    requires forall named | named in speaks :: named in speaker.speaks
    ensures one in OwedBy(speaker, speaks, published) <==> one.contract in speaks && Owes(speaker, published, one)
  {
    hide Owes, OwedFor;
    if speaks != [] {
      var init, last := speaks[..|speaks| - 1], speaks[|speaks| - 1];
      assert speaks == init + [last];
      OwedByMeans(speaker, init, published, one);
      OwedForMeans(speaker, last, published, one);
    }
  }

  /** Just those recordings are owed. */
  lemma {:induction false} OwedMeans(speakers: seq<Speaker>, published: seq<Capability>, one: Owing)
    ensures one in Owed(speakers, published) <==> exists speaker :: speaker in speakers && Owes(speaker, published, one)
  {
    hide OwedBy;
    if speakers != [] {
      var init, last := speakers[..|speakers| - 1], speakers[|speakers| - 1];
      assert speakers == init + [last];
      OwedMeans(init, published, one);
      OwedByMeans(last, last.speaks, published, one);
      OwesSpoken(last, published, one);
      hide Owes;
    }
  }

  /** What fewer speakers owe comes first, in the same order; so with contracts, and with cases. */
  lemma {:induction false} OwedInOrder(speakers: seq<Speaker>, published: seq<Capability>, n: nat)
    requires n <= |speakers|
    ensures Owed(speakers[..n], published) <= Owed(speakers, published)
  {
    hide OwedBy;
    if n < |speakers| {
      OwedInOrder(speakers[..|speakers| - 1], published, n);
      assert speakers[..|speakers| - 1][..n] == speakers[..n];
    } else {
      assert speakers[..n] == speakers;
    }
  }

  lemma {:induction false} OwedByInOrder(speaker: Speaker, speaks: seq<string>, published: seq<Capability>, n: nat)
    requires n <= |speaks|
    ensures OwedBy(speaker, speaks[..n], published) <= OwedBy(speaker, speaks, published)
  {
    hide OwedFor;
    if n < |speaks| {
      OwedByInOrder(speaker, speaks[..|speaks| - 1], published, n);
      assert speaks[..|speaks| - 1][..n] == speaks[..n];
    } else {
      assert speaks[..n] == speaks;
    }
  }

  lemma {:induction false} CasesInOrder(speaker: Speaker, named: string, cases: seq<Case>, n: nat)
    requires n <= |cases|
    ensures Owings(speaker, named, FittingIn(cases[..n], speaker.files))
            <= Owings(speaker, named, FittingIn(cases, speaker.files))
  {
    FittingInOrder(cases, speaker.files, n);
    OwingsInOrder(speaker, named, FittingIn(cases[..n], speaker.files), FittingIn(cases, speaker.files));
  }

  lemma {:induction false} FittingInOrder(cases: seq<Case>, files: seq<string>, n: nat)
    requires n <= |cases|
    ensures FittingIn(cases[..n], files) <= FittingIn(cases, files)
  {
    hide Fits;
    if n > 0 {
      FittingInOrder(cases[1..], files, n - 1);
      assert cases[..n][1..] == cases[1..][..n - 1];
    }
  }

  lemma {:induction false} OwingsInOrder(speaker: Speaker, named: string, some: seq<Case>, all: seq<Case>)
    requires some <= all
    ensures Owings(speaker, named, some) <= Owings(speaker, named, all)
    ensures |Owings(speaker, named, some)| == |some|
    ensures forall i | 0 <= i < |some| :: Owings(speaker, named, some)[i].case_ == some[i]
  {
    hide RecordingOf;
    if some != [] {
      OwingsInOrder(speaker, named, some[1..], all[1..]);
    }
  }

  lemma OwesSpoken(speaker: Speaker, published: seq<Capability>, one: Owing)
    ensures Owes(speaker, published, one) ==> one.contract in speaker.speaks
  {
  }

  // ---------------------------------------------------------------- verdicts

  /** Whether what was recorded is a post for JSON to the operation's own path. */
  predicate OfRequest(operation: Operation, recorded: Recording) {
    && recorded.Request? && recorded.method_ == "POST" && recorded.accept == Some("application/json")
    && recorded.path == "/lemonfiber/" + operation.capability + "/v" + Decimal(operation.major) + "/" + operation.name
  }

  /** Whether an answer is one the case allows: a status it is held to, or, where it is to conform,
      any but an unkeyed refusal with nothing told against it. */
  predicate Allowed(c: Case, recorded: Recording, told: (Operation, nat, string) -> seq<string>)
    requires recorded.Request?
  {
    match c.held
    case Status(statuses) => recorded.status in statuses
    case Conforms => recorded.status != 401 && told(c.operation, recorded.status, recorded.body) == []
  }

  /** What a recording comes to: nothing proven where it is of no pinned image, of another, of a run,
      or of another request; and otherwise passed or failed as its answer is allowed. */
  lemma VerdictMeans(one: Owing, recorded: Recording, told: (Operation, nat, string) -> seq<string>)
    ensures var verdict := VerdictOf(one, recorded, told);
            if one.pinned.None? then verdict == Unproven(NamesNoUpstream)
            else if recorded.recordedFrom != one.pinned.value then verdict == Unproven(FromElsewhere)
            else if recorded.Run? then verdict == Unproven(OfARun)
            else if !OfRequest(one.case_.operation, recorded) then verdict == Unproven(AskedOtherwise)
            else (verdict == Passed || verdict.Failed?) && (verdict == Passed <==> Allowed(one.case_, recorded, told))
  {
    assert UNKEYED[0] == 401;
    hide Decimal;
  }

  /** And what is judged of each: by its recording where one stands, as not proven where that cannot be
      read, and otherwise by whether its operation is newer than all recorded beside it. */
  lemma JudgeMeans(owed: seq<Owing>, one: Owing, shelf: Shelf)
    ensures var verdict := Judge(owed, one, shelf);
            if one.recording in shelf.files then
              verdict == match shelf.files[one.recording]
                         case Some(recorded) => VerdictOf(one, recorded, shelf.told)
                         case None => Unproven(Unrunnable)
            else
              && (verdict == Passed || verdict == Unrecorded)
              && (verdict == Passed <==>
                    && one.case_.operation.since > 0
                    && forall other | other in owed && other.service == one.service && other.contract == one.contract
                                      && other.recording in shelf.files ::
                         other.case_.operation.since < one.case_.operation.since)
  {
    hide VerdictOf;
    RecordedBelow(owed, one, shelf, one.case_.operation.since);
  }

  lemma {:induction false} RecordedBelow(owed: seq<Owing>, one: Owing, shelf: Shelf, since: nat)
    ensures RecordedMinor(owed, one, shelf) < since <==>
              && since > 0
              && forall other | other in owed && other.service == one.service && other.contract == one.contract
                                && other.recording in shelf.files :: other.case_.operation.since < since
  {
    if owed != [] {
      var init, last := owed[..|owed| - 1], owed[|owed| - 1];
      assert owed == init + [last];
      RecordedBelow(init, one, shelf, since);
    }
  }

  /** One judgement for each recording owed, in their order, named as they are. */
  lemma {:induction false} JudgedMeans(owed: seq<Owing>, some: seq<Owing>, shelf: Shelf)
    ensures |JudgedEach(owed, some, shelf)| == |some|
    ensures forall i | 0 <= i < |some| ::
              JudgedEach(owed, some, shelf)[i]
                == Judged(some[i].contract, some[i].case_.name, some[i].recording, Judge(owed, some[i], shelf))
  {
    hide Judge;
    if some != [] {
      JudgedMeans(owed, some[..|some| - 1], shelf);
    }
  }

  // ---------------------------------------------------------------- answers

  /** The answer a placeholder asks for is that of a case the capability has, where the operation is
      one it answers and is bound to no kind of media. */
  lemma AnswerIsACase(capability: Capability, operation: Operation, pointer: string)
    requires operation in capability.operations && operation.refused.None? && operation.filed == []
    ensures var answer := Answer(capability.name, capability.major, operation.name, pointer);
            var named := capability.name + "@" + Decimal(capability.major);
            exists c :: c in Cases(capability) && c.operation == operation && c.keyed && c.held == Conforms
                        && answer == Answered(named + "/" + c.name, pointer)
  {
    var c := Case(operation.name + "-answers", operation, true, Conforms, false, operation.asks, None);
    CaseMeans(capability, c);
    assert AsksKeyed(operation, c);
    var named := capability.name + "@" + Decimal(capability.major);
    hide Decimal, Cases;
    assert named + "/" + operation.name + "-answers" == named + "/" + (operation.name + "-answers");
  }
}
