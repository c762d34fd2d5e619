/** The cases a capability's adapters answer, and each as its recording answers it. */
module Conformance {
  import opened Outcomes
  import opened Digits

  const UNKEYED: seq<nat> := [401]

  const REFUSES_WITHOUT_THE_KEY := "refuses-without-the-key"

  const RECORDINGS := "conformance"

  const ASKED_WITH := "POST"

  const JSON := "application/json"

  /** A request body with its placeholders unfilled. Nothing here looks inside, so it is its text. */
  type Ask = string

  /** An operation: where it belongs, what its case posts or must be refused with, the kinds of
      media it is bound to, and the minor it was added at. */
  datatype Operation = Operation(capability: string, major: nat, name: string, asks: Ask, filed: seq<(string, Ask)>,
                                 refused: Option<seq<nat>>, since: nat)

  datatype Capability = Capability(name: string, major: nat, operations: seq<Operation>)

  datatype Expect = Status(statuses: seq<nat>) | Conforms

  datatype Case = Case(name: string, operation: Operation, keyed: bool, held: Expect, live: bool, asks: Ask,
                       mediaType: Option<string>)

  // ---------------------------------------------------------------- cases

  function Answers(operation: string): string {
    operation + "-answers"
  }

  function Refuses(operation: string): string {
    operation + "-refuses"
  }

  function Keyed(operation: Operation, name: string, asks: Ask, mediaType: Option<string>): Case {
    Case(name, operation, true, if operation.refused.Some? then Status(operation.refused.value) else Conforms,
         false, asks, mediaType)
  }

  function PerMedia(operation: Operation, filed: seq<(string, Ask)>): seq<Case> {
    if filed == [] then []
    else
      [Keyed(operation, Answers(operation.name) + "-" + filed[0].0, filed[0].1, Some(filed[0].0))]
      + PerMedia(operation, filed[1..])
  }

  /** The cases with a key that one operation comes to. Only an operation that answers, and is bound
      to kinds of media, comes to more than one. */
  function KeyedCases(operation: Operation): seq<Case> {
    if operation.refused.Some? then [Keyed(operation, Refuses(operation.name), operation.asks, None)]
    else if operation.filed == [] then [Keyed(operation, Answers(operation.name), operation.asks, None)]
    else PerMedia(operation, operation.filed)
  }

  function EachKeyed(operations: seq<Operation>): seq<Case> {
    if operations == [] then [] else KeyedCases(operations[0]) + EachKeyed(operations[1..])
  }

  /** The case that asks the first operation without the key. */
  function Unkeyed(operations: seq<Operation>): seq<Case> {
    if operations == [] then []
    else [Case(REFUSES_WITHOUT_THE_KEY, operations[0], false, Status(UNKEYED), true, "{}", None)]
  }

  /** All the cases of a capability: the one without a key first, then operation by operation. */
  function Cases(capability: Capability): seq<Case> {
    Unkeyed(capability.operations) + EachKeyed(capability.operations)
  }

  predicate Fits(c: Case, files: seq<string>) {
    c.mediaType.None? || c.mediaType.value in files
  }

  function FittingIn(cases: seq<Case>, files: seq<string>): seq<Case> {
    if cases == [] then []
    else (if Fits(cases[0], files) then [cases[0]] else []) + FittingIn(cases[1..], files)
  }

  /** Of those cases, the ones that fit an upstream with these kinds of media. */
  function Filed(capability: Capability, files: seq<string>): seq<Case> {
    FittingIn(Cases(capability), files)
  }

  // ---------------------------------------------------------- what is owed

  /** A service that speaks contracts, with the image it is pinned to. */
  datatype Speaker = Speaker(service: string, speaks: seq<string>, pinned: Option<string>, files: seq<string>)

  /** A case some service has to have recorded: where the recording is looked for, and from which image. */
  datatype Owing = Owing(service: string, contract: string, case_: Case, recording: string, pinned: Option<string>)

  /** The name of a contract: a capability at one of its majors. */
  function Spoken(capability: string, major: nat): string {
    capability + "@" + Decimal(major)
  }

  function RecordingOf(contract: string, name: string): string {
    RECORDINGS + "/" + contract + "/" + name + ".json"
  }

  /** The first capability published under `named`. */
  function Find(published: seq<Capability>, named: string): Option<Capability> {
    if published == [] then None
    else if Spoken(published[0].name, published[0].major) == named then Some(published[0])
    else Find(published[1..], named)
  }

  function Owings(speaker: Speaker, named: string, cases: seq<Case>): seq<Owing> {
    if cases == [] then []
    else
      [Owing(speaker.service, named, cases[0], RecordingOf(named, cases[0].name), speaker.pinned)]
      + Owings(speaker, named, cases[1..])
  }

  /** What `speaker` owes for one contract it speaks; nothing for one that is not published. */
  function OwedFor(speaker: Speaker, named: string, published: seq<Capability>): seq<Owing> {
    match Find(published, named)
    case None => []
    case Some(spoken) => Owings(speaker, named, Filed(spoken, speaker.files))
  }

  function OwedBy(speaker: Speaker, speaks: seq<string>, published: seq<Capability>): seq<Owing> {
    if speaks == [] then []
    else OwedBy(speaker, speaks[..|speaks| - 1], published) + OwedFor(speaker, speaks[|speaks| - 1], published)
  }

  function Owed(speakers: seq<Speaker>, published: seq<Capability>): seq<Owing> {
    if speakers == [] then []
    else
      var last := speakers[|speakers| - 1];
      Owed(speakers[..|speakers| - 1], published) + OwedBy(last, last.speaks, published)
  }

  /** `owed`: every recording, speaker by speaker and contract by contract. */
  method OweAll(speakers: seq<Speaker>, published: seq<Capability>) returns (owed: seq<Owing>)
    ensures owed == Owed(speakers, published)
  {
    hide OwedFor;
    owed := [];
    for s := 0 to |speakers|
      invariant owed == Owed(speakers[..s], published)
    {
      var speaker := speakers[s];
      ghost var before := owed;
      assert speakers[..s + 1][..s] == speakers[..s];
      for n := 0 to |speaker.speaks|
        invariant owed == before + OwedBy(speaker, speaker.speaks[..n], published)
      {
        var named := speaker.speaks[n];
        assert speaker.speaks[..n + 1][..n] == speaker.speaks[..n];
        owed := owed + OwedFor(speaker, named, published);
      }
      assert speaker.speaks[..|speaker.speaks|] == speaker.speaks;
    }
    assert speakers[..|speakers|] == speakers;
  }

  // ---------------------------------------------------------------- verdicts

  datatype Verdict = Passed | Failed(faults: seq<string>) | Unrecorded | Unproven(why: Reason)

  datatype Reason = Unrunnable | NamesNoUpstream | FromElsewhere | OfARun | AskedOtherwise

  datatype Judged = Judged(contract: string, name: string, recording: string, verdict: Verdict)

  /** A recording: a run, or what was asked over a request and answered. */
  datatype Recording =
    | Run(recordedFrom: string)
    | Request(recordedFrom: string, method_: string, path: string, accept: Option<string>, status: nat, body: string)

  /** The recordings beneath a plugin's source by where they sit, none where one cannot be read;
      and what reading an answer against its operation's contract has to say against it. */
  datatype Shelf = Shelf(files: map<string, Option<Recording>>, told: (Operation, nat, string) -> seq<string>)

  function PathOf(operation: Operation): string {
    "/lemonfiber/" + operation.capability + "/v" + Decimal(operation.major) + "/" + operation.name
  }

  /** The verdict on a recording that stands where `one` is owed. */
  function VerdictOf(one: Owing, recording: Recording, told: (Operation, nat, string) -> seq<string>): Verdict {
    var operation := one.case_.operation;
    if one.pinned.None? then Unproven(NamesNoUpstream)
    else if recording.recordedFrom != one.pinned.value then Unproven(FromElsewhere)
    else if recording.Run? then Unproven(OfARun)
    else if recording.method_ != ASKED_WITH || recording.path != PathOf(operation)
            || recording.accept != Some(JSON) then
      Unproven(AskedOtherwise)
    else
      match one.case_.held
      case Status(statuses) => if recording.status in statuses then Passed else Failed(["answered another status"])
      case Conforms =>
        if recording.status in UNKEYED then Failed(["refused the plugin's own key"])
        else
          var faults := told(operation, recording.status, recording.body);
          if faults == [] then Passed else Failed(faults)
  }

  function Max(a: nat, b: nat): nat {
    if a < b then b else a
  }

  /** Whether `other` is of `one`'s adapter and contract, and recorded. */
  predicate Beside(other: Owing, one: Owing, shelf: Shelf) {
    other.service == one.service && other.contract == one.contract && other.recording in shelf.files
  }

  /** The highest minor its adapter holds a recording of `one`'s contract for; none is the first. */
  function RecordedMinor(owed: seq<Owing>, one: Owing, shelf: Shelf): nat {
    if owed == [] then 0
    else
      var rest := RecordedMinor(owed[..|owed| - 1], one, shelf);
      var last := owed[|owed| - 1];
      if Beside(last, one, shelf) then Max(rest, last.case_.operation.since) else rest
  }

  function Judge(owed: seq<Owing>, one: Owing, shelf: Shelf): Verdict {
    if one.recording in shelf.files then
      match shelf.files[one.recording]
      case Some(recorded) => VerdictOf(one, recorded, shelf.told)
      case None => Unproven(Unrunnable)
    else if one.case_.operation.since > RecordedMinor(owed, one, shelf) then Passed
    else Unrecorded
  }

  function JudgedEach(owed: seq<Owing>, some: seq<Owing>, shelf: Shelf): seq<Judged> {
    if some == [] then []
    else
      var one := some[|some| - 1];
      JudgedEach(owed, some[..|some| - 1], shelf)
      + [Judged(one.contract, one.case_.name, one.recording, Judge(owed, one, shelf))]
  }

  /** `judged`: every recording owed, as the shelf answers it. */
  method JudgeAll(speakers: seq<Speaker>, published: seq<Capability>, shelf: Shelf) returns (judged: seq<Judged>)
    ensures judged == JudgedEach(Owed(speakers, published), Owed(speakers, published), shelf)
  {
    hide VerdictOf, Owed;
    var owed := OweAll(speakers, published);
    judged := [];
    for i := 0 to |owed|
      invariant judged == JudgedEach(owed, owed[..i], shelf)
    {
      var one := owed[i];
      assert owed[..i + 1][..i] == owed[..i];
      var verdict;
      if one.recording in shelf.files {
        match shelf.files[one.recording] {
          case Some(recorded) => verdict := VerdictOf(one, recorded, shelf.told);
          case None => verdict := Unproven(Unrunnable);
        }
      } else if one.case_.operation.since > RecordedMinor(owed, one, shelf) {
        verdict := Passed;
      } else {
        verdict := Unrecorded;
      }
      judged := judged + [Judged(one.contract, one.case_.name, one.recording, verdict)];
    }
    assert owed[..|owed|] == owed;
  }

  // ---------------------------------------------------- what cases establish

  lemma {:induction false} PerMediaKeyed(operation: Operation, filed: seq<(string, Ask)>)
    ensures forall c | c in PerMedia(operation, filed) :: c.keyed && c.operation == operation && c.mediaType.Some?
    ensures forall media | media in filed ::
              exists c :: c in PerMedia(operation, filed) && c.mediaType == Some(media.0) && c.asks == media.1
  {
    if filed != [] {
      PerMediaKeyed(operation, filed[1..]);
      var all := PerMedia(operation, filed);
      assert all[0] in all && all[0].mediaType == Some(filed[0].0) && all[0].asks == filed[0].1;
      forall media | media in filed
        ensures exists c :: c in all && c.mediaType == Some(media.0) && c.asks == media.1
      {
        if media != filed[0] {
          assert media in filed[1..];
          var c :| c in PerMedia(operation, filed[1..]) && c.mediaType == Some(media.0) && c.asks == media.1;
          assert c in all;
        }
      }
    }
  }

  /** Every operation is asked under the key, for each kind of media it is bound to where it is
      answered, and held to what it must refuse with where it is not. */
  lemma {:induction false} EveryOperationAsked(operations: seq<Operation>, operation: Operation)
    requires operation in operations
    ensures exists c :: c in EachKeyed(operations) && c.keyed && c.operation == operation
                        && c.held == if operation.refused.Some? then Status(operation.refused.value) else Conforms
    ensures operation.refused.None? ==> forall media | media in operation.filed ::
              exists c :: c in EachKeyed(operations) && c.operation == operation && c.mediaType == Some(media.0)
  {
    var all := EachKeyed(operations);
    if operation == operations[0] {
      var keyed := KeyedCases(operation);
      PerMediaKeyed(operation, operation.filed);
      assert keyed[0] in keyed && keyed[0] in all;
      forall media | media in operation.filed && operation.refused.None?
        ensures exists c :: c in all && c.operation == operation && c.mediaType == Some(media.0)
      {
        var c :| c in PerMedia(operation, operation.filed) && c.mediaType == Some(media.0) && c.asks == media.1;
        assert c in keyed && c in all;
      }
    } else {
      hide KeyedCases;
      EveryOperationAsked(operations[1..], operation);
      assert forall c | c in EachKeyed(operations[1..]) :: c in all;
    }
  }

  lemma {:induction false} EachKeyedIsKeyed(operations: seq<Operation>)
    ensures forall c | c in EachKeyed(operations) :: c.keyed
  {
    if operations != [] {
      EachKeyedIsKeyed(operations[1..]);
      PerMediaKeyed(operations[0], operations[0].filed);
    }
  }

  /** One case, the first and no other, is asked without the key. */
  lemma OneWithoutTheKey(capability: Capability, i: nat)
    requires i < |Cases(capability)|
    ensures Cases(capability)[i].keyed <==> i > 0
    ensures Cases(capability)[0].held == Status(UNKEYED) && Cases(capability)[0].operation == capability.operations[0]
  {
    EachKeyedIsKeyed(capability.operations);
    assert EachKeyed([]) == [];
    if i > 0 {
      assert Cases(capability)[i] == EachKeyed(capability.operations)[i - 1];
    }
  }

  /** What a recording must be for its case: taken from the pinned image, of the very request the
      case asks, and answered with a status it is held to, or with nothing told against the answer. */
  predicate Shows(one: Owing, recorded: Recording, told: (Operation, nat, string) -> seq<string>) {
    && one.pinned == Some(recorded.recordedFrom)
    && recorded.Request?
    && recorded.method_ == ASKED_WITH && recorded.path == PathOf(one.case_.operation)
    && recorded.accept == Some(JSON)
    && (one.case_.held.Status? ==> recorded.status in one.case_.held.statuses)
    && (one.case_.held.Conforms? ==>
          && recorded.status !in UNKEYED
          && told(one.case_.operation, recorded.status, recorded.body) == [])
  }

  lemma PassingShows(owed: seq<Owing>, one: Owing, shelf: Shelf)
    requires one.recording in shelf.files
    ensures Judge(owed, one, shelf) == Passed
       <==> shelf.files[one.recording].Some? && Shows(one, shelf.files[one.recording].value, shelf.told)
  {
    hide PathOf;
  }

  lemma {:induction false} JudgedIn(owed: seq<Owing>, some: seq<Owing>, shelf: Shelf)
    ensures |JudgedEach(owed, some, shelf)| == |some|
    ensures forall i | 0 <= i < |some| :: JudgedEach(owed, some, shelf)[i].verdict == Judge(owed, some[i], shelf)
  {
    hide Judge;
    if some != [] {
      JudgedIn(owed, some[..|some| - 1], shelf);
    }
  }
}
