/** An append-only directory of release files: which files a record adds to it, and which record
    its files fold into. */
module ReleaseRecord {
  import opened Outcomes
  import opened Sorting

  datatype Version = Version(major: nat, minor: nat, patch: nat)

  datatype Entry = Entry(summary: string, reference: Option<string>, requirements: seq<string>)

  datatype Group = Group(title: string, entries: seq<Entry>)

  /** What a release says of itself that nothing here reads. */
  datatype Facts = Facts(tag: string, releasedOn: Option<string>, delivers: Option<string>,
                         patches: Option<string>, carried: Option<string>, userFacing: bool)

  datatype Release = Release(version: Version, withdrawn: Option<string>, groups: seq<Group>, facts: Facts)

  /** A requirement as a release file holds it: its page, or that it was withdrawn. */
  datatype About = Live(feature: string, url: string) | Gone(feature: string)

  datatype Requirement = Requirement(about: About, shippedIn: seq<Version>)

  datatype Record = Record(releases: seq<Release>, requirements: map<string, Requirement>)

  datatype Document = Document(release: Release, requirements: map<string, About>,
                               withdraws: map<Version, string>, withdrawnRequirements: seq<string>)

  type Files = map<Version, Document>

  /** The requirement a release cites and the record does not hold. */
  datatype Refusal = NoRequirement

  // ------------------------------------------------------------ versions

  predicate Older(a: Version, b: Version) {
    || a.major < b.major
    || (a.major == b.major && a.minor < b.minor)
    || (a.major == b.major && a.minor == b.minor && a.patch < b.patch)
  }

  predicate Newer(a: Version, b: Version) {
    Older(b, a)
  }

  lemma VersionsOrder(s: set<Version>)
    ensures Orders(Older, s)
    ensures Orders(Newer, s)
  {
  }

  function Oldest(s: set<Version>): (r: seq<Version>)
    ensures forall v :: v in r <==> v in s
    ensures forall i, j | 0 <= i < j < |r| :: Older(r[i], r[j])
  {
    VersionsOrder(s);
    Sorted(Older, s)
  }

  function Latest(s: set<Version>): (r: seq<Version>)
    ensures forall v :: v in r <==> v in s
    ensures forall i, j | 0 <= i < j < |r| :: Newer(r[i], r[j])
  {
    VersionsOrder(s);
    Sorted(Newer, s)
  }

  /** A withdrawal is a reason given; an absent or empty one is none. */
  predicate Given(reason: Option<string>) {
    reason.Some? && reason.value != ""
  }

  // ----------------------------------------------------------- citations

  function Named(entries: seq<Entry>): seq<string> {
    if entries == [] then []
    else Named(entries[..|entries| - 1]) + entries[|entries| - 1].requirements
  }

  function Mentioned(groups: seq<Group>): seq<string> {
    if groups == [] then []
    else Mentioned(groups[..|groups| - 1]) + Named(groups[|groups| - 1].entries)
  }

  /** The members of `all`, each where it first appears. */
  function Once(all: seq<string>): (r: seq<string>)
    ensures forall id :: id in r <==> id in all
  {
    if all == [] then []
    else
      var rest := Once(all[..|all| - 1]);
      var last := all[|all| - 1];
      assert forall id :: id in all <==> id in all[..|all| - 1] || id == last;
      if last in rest then rest else rest + [last]
  }

  function CitedIn(release: Release): seq<string> {
    Once(Mentioned(release.groups))
  }

  /** Where `id` first appears in `all`. */
  function First(all: seq<string>, id: string): (k: nat)
    requires id in all
    ensures k < |all| && all[k] == id
    ensures forall i | 0 <= i < k :: all[i] != id
  {
    if all[0] == id then 0
    else
      assert all == [all[0]] + all[1..];
      First(all[1..], id) + 1
  }

  /** `Once` has no repeats, and its order is that of first appearance. */
  lemma {:induction false} OnceInOrder(all: seq<string>, i: nat, j: nat)
    requires i < j < |Once(all)|
    ensures Once(all)[i] != Once(all)[j]
    ensures First(all, Once(all)[i]) < First(all, Once(all)[j])
  {
    hide First;
    var init, last := all[..|all| - 1], all[|all| - 1];
    var rest := Once(init);
    assert all == init + [last];
    assert rest[i] in init;
    FirstOfPrefix(init, last, rest[i]);
    if j < |rest| {
      assert rest[j] in init;
      OnceInOrder(init, i, j);
      FirstOfPrefix(init, last, rest[j]);
    } else {
      FirstOfNew(init, last);
    }
  }

  lemma FirstOfPrefix(init: seq<string>, last: string, id: string)
    requires id in init
    ensures id in init + [last] && First(init + [last], id) == First(init, id)
  {
    hide First;
    var k, f := First(init, id), First(init + [last], id);
    assert (init + [last])[k] == id;
    assert f < |init| ==> (init + [last])[f] == init[f];
    assert f == k;
  }

  lemma FirstOfNew(init: seq<string>, last: string)
    requires last !in init
    ensures First(init + [last], last) == |init|
  {
    hide First;
    assert forall i | 0 <= i < |init| :: (init + [last])[i] == init[i] && init[i] in init;
    assert (init + [last])[|init|] == last;
  }

  // ------------------------------------------------ places of citations

  /** Whether entry `e` of group `g` cites `id`, as its `i`th requirement. */
  predicate CitesAt(release: Release, g: nat, e: nat, i: nat, id: string) {
    && g < |release.groups| && e < |release.groups[g].entries|
    && i < |release.groups[g].entries[e].requirements|
    && release.groups[g].entries[e].requirements[i] == id
  }

  ghost predicate Cites(release: Release, id: string) {
    exists g, e, i :: CitesAt(release, g, e, i, id)
  }

  /** Group by group, entry by entry, and requirement by requirement. */
  predicate Sooner(g: nat, e: nat, i: nat, g': nat, e': nat, i': nat) {
    g < g' || (g == g' && (e < e' || (e == e' && i < i')))
  }

  /** Whether `id` is cited somewhere before every place that cites `other`. */
  ghost predicate CitedSooner(release: Release, id: string, other: string) {
    exists g, e, i :: CitesAt(release, g, e, i, id)
      && forall g', e', i' | CitesAt(release, g', e', i', other) :: Sooner(g, e, i, g', e', i')
  }

  /** How many requirements come before the first of entry `e` in group `g`. */
  ghost function Offset(release: Release, g: nat, e: nat): nat
    requires g < |release.groups| && e <= |release.groups[g].entries|
  {
    |Mentioned(release.groups[..g])| + |Named(release.groups[g].entries[..e])|
  }

  lemma {:induction false} NamedAt(entries: seq<Entry>, e: nat, i: nat)
    requires e < |entries| && i < |entries[e].requirements|
    ensures |Named(entries[..e])| + i < |Named(entries[..e + 1])| <= |Named(entries)|
    ensures Named(entries)[|Named(entries[..e])| + i] == entries[e].requirements[i]
  {
    var init := entries[..|entries| - 1];
    if e < |init| {
      NamedAt(init, e, i);
      assert init[..e] == entries[..e] && init[..e + 1] == entries[..e + 1];
    } else {
      assert entries[..e + 1] == entries;
    }
  }

  lemma {:induction false} MentionedAt(groups: seq<Group>, g: nat, k: nat)
    requires g < |groups| && k < |Named(groups[g].entries)|
    ensures |Mentioned(groups[..g])| + k < |Mentioned(groups[..g + 1])| <= |Mentioned(groups)|
    ensures Mentioned(groups)[|Mentioned(groups[..g])| + k] == Named(groups[g].entries)[k]
  {
    hide Named;
    var init := groups[..|groups| - 1];
    if g < |init| {
      MentionedAt(init, g, k);
      assert init[..g] == groups[..g] && init[..g + 1] == groups[..g + 1];
    } else {
      assert groups[..g + 1] == groups;
    }
  }

  lemma OffsetAt(release: Release, g: nat, e: nat, i: nat, id: string)
    requires CitesAt(release, g, e, i, id)
    ensures Offset(release, g, e) + i < |Mentioned(release.groups)|
    ensures Mentioned(release.groups)[Offset(release, g, e) + i] == id
  {
    NamedAt(release.groups[g].entries, e, i);
    MentionedAt(release.groups, g, |Named(release.groups[g].entries[..e])| + i);
  }

  lemma {:induction false} NamedFrom(entries: seq<Entry>, k: nat) returns (e: nat, i: nat)
    requires k < |Named(entries)|
    ensures e < |entries| && i < |entries[e].requirements|
    ensures k == |Named(entries[..e])| + i
  {
    var init := entries[..|entries| - 1];
    if k < |Named(init)| {
      e, i := NamedFrom(init, k);
      assert init[..e] == entries[..e];
    } else {
      e, i := |init|, k - |Named(init)|;
    }
  }

  lemma {:induction false} MentionedFrom(groups: seq<Group>, k: nat) returns (g: nat, j: nat)
    requires k < |Mentioned(groups)|
    ensures g < |groups| && j < |Named(groups[g].entries)|
    ensures k == |Mentioned(groups[..g])| + j
  {
    hide Named;
    var init := groups[..|groups| - 1];
    if k < |Mentioned(init)| {
      g, j := MentionedFrom(init, k);
      assert init[..g] == groups[..g];
    } else {
      g, j := |init|, k - |Mentioned(init)|;
    }
  }

  lemma PlaceOf(release: Release, k: nat) returns (g: nat, e: nat, i: nat)
    requires k < |Mentioned(release.groups)|
    ensures CitesAt(release, g, e, i, Mentioned(release.groups)[k])
    ensures k == Offset(release, g, e) + i
  {
    var j;
    g, j := MentionedFrom(release.groups, k);
    e, i := NamedFrom(release.groups[g].entries, j);
    OffsetAt(release, g, e, i, release.groups[g].entries[e].requirements[i]);
  }

  /** A place further on comes at a later offset. */
  lemma OffsetsAscend(release: Release, g: nat, e: nat, i: nat, id: string, g': nat, e': nat, i': nat, id': string)
    requires CitesAt(release, g, e, i, id) && CitesAt(release, g', e', i', id')
    requires Sooner(g, e, i, g', e', i')
    ensures Offset(release, g, e) + i < Offset(release, g', e') + i'
  {
    if g < g' {
      NamedAt(release.groups[g].entries, e, i);
      MentionedAt(release.groups[..g'], g, |Named(release.groups[g].entries[..e])| + i);
      assert release.groups[..g'][..g] == release.groups[..g];
    } else if e < e' {
      NamedAt(release.groups[g].entries[..e'], e, i);
      assert release.groups[g].entries[..e'][..e] == release.groups[g].entries[..e];
    }
  }

  lemma CitedSomewhere(release: Release, id: string)
    ensures id in CitedIn(release) <==> Cites(release, id)
  {
    hide Once, Mentioned, Offset;
    var all := Mentioned(release.groups);
    if id in all {
      var k :| 0 <= k < |all| && all[k] == id;
      var g, e, i := PlaceOf(release, k);
    }
    if g, e, i :| CitesAt(release, g, e, i, id) {
      OffsetAt(release, g, e, i, id);
    }
  }

  lemma CitedInOrder(release: Release, a: nat, b: nat)
    requires a < b < |CitedIn(release)|
    ensures CitedIn(release)[a] != CitedIn(release)[b]
    ensures CitedSooner(release, CitedIn(release)[a], CitedIn(release)[b])
  {
    hide Once, First, Mentioned, Offset, CitesAt, Sooner;
    var all := Mentioned(release.groups);
    OnceInOrder(all, a, b);
    var id, other := CitedIn(release)[a], CitedIn(release)[b];
    var g, e, i := PlaceOf(release, First(all, id));
    forall g', e', i' | CitesAt(release, g', e', i', other)
      ensures Sooner(g, e, i, g', e', i')
    {
      OffsetAt(release, g', e', i', other);
      SoonerOrNot(release, g, e, i, id, g', e', i', other);
    }
  }

  lemma SoonerOrNot(release: Release, g: nat, e: nat, i: nat, id: string, g': nat, e': nat, i': nat, id': string)
    requires CitesAt(release, g, e, i, id) && CitesAt(release, g', e', i', id')
    requires Offset(release, g, e) + i < Offset(release, g', e') + i'
    ensures Sooner(g, e, i, g', e', i')
  {
    hide Offset;
    if !Sooner(g, e, i, g', e', i') && (g, e, i) != (g', e', i') {
      OffsetsAscend(release, g', e', i', id', g, e, i, id);
    }
  }

  /** `cited_in`: the requirements a release's entries cite, by three nested loops: those some entry
      of some group cites, none twice, in the order of the places that first cite them. */
  method Cited(release: Release) returns (named: seq<string>)
    ensures named == CitedIn(release)
    ensures forall id :: id in named <==> Cites(release, id)
    ensures forall a, b | 0 <= a < b < |named| :: named[a] != named[b] && CitedSooner(release, named[a], named[b])
  {
    named := CitedByGroups(release);
    hide CitedIn, Cites, CitedSooner;
    forall id
      ensures id in named <==> Cites(release, id)
    {
      CitedSomewhere(release, id);
    }
    forall a, b | 0 <= a < b < |named|
      ensures named[a] != named[b] && CitedSooner(release, named[a], named[b])
    {
      CitedInOrder(release, a, b);
    }
  }

  method CitedByGroups(release: Release) returns (named: seq<string>)
    ensures named == CitedIn(release)
  {
    named := [];
    assert Once([]) == [];
    hide Once, Named;
    for g := 0 to |release.groups|
      invariant named == Once(Mentioned(release.groups[..g]))
    {
      named := CitedByGroup(named, release.groups[g].entries, Mentioned(release.groups[..g]));
      assert release.groups[..g + 1][..g] == release.groups[..g];
    }
    assert release.groups[..|release.groups|] == release.groups;
  }

  method CitedByGroup(given: seq<string>, entries: seq<Entry>, ghost sofar: seq<string>) returns (named: seq<string>)
    requires given == Once(sofar)
    ensures named == Once(sofar + Named(entries))
  {
    hide Once;
    named := given;
    assert sofar + Named([]) == sofar;
    for e := 0 to |entries|
      invariant named == Once(sofar + Named(entries[..e]))
    {
      named := Gathered(named, entries[e].requirements, sofar + Named(entries[..e]));
      assert entries[..e + 1][..e] == entries[..e];
      assert (sofar + Named(entries[..e])) + entries[e].requirements == sofar + Named(entries[..e + 1]);
    }
    assert entries[..|entries|] == entries;
  }

  method Gathered(given: seq<string>, requirements: seq<string>, ghost sofar: seq<string>) returns (named: seq<string>)
    requires given == Once(sofar)
    ensures named == Once(sofar + requirements)
  {
    named := given;
    assert sofar + requirements[..0] == sofar;
    for i := 0 to |requirements|
      invariant named == Once(sofar + requirements[..i])
    {
      var id := requirements[i];
      ghost var grown := sofar + requirements[..i + 1];
      assert grown[..|grown| - 1] == sofar + requirements[..i];
      if id !in named {
        named := named + [id];
      }
    }
    assert requirements[..|requirements|] == requirements;
  }

  // ------------------------------------------- what the files already say

  /** The releases the kept files already say were taken back. */
  function WithdrawnReleases(held: Files): set<Version> {
    (set v | v in held && Given(held[v].release.withdrawn) :: held[v].release.version)
    + (set v, u | v in held && u in held[v].withdraws :: u)
  }

  function Ids(listed: seq<string>): set<string> {
    set id | id in listed
  }

  /** Every id some file lists as withdrawn, or cites as gone. */
  function WithdrawnIds(held: Files): set<string> {
    (set v, id | v in held && id in held[v].withdrawnRequirements :: id)
    + (set v, id | v in held && id in held[v].requirements && held[v].requirements[id].Gone? :: id)
  }

  /** `recorded_withdrawn`: one pass over the kept files. */
  method RecordedWithdrawn(held: Files) returns (releases: set<Version>, requirements: set<string>)
    ensures releases == WithdrawnReleases(held)
    ensures requirements == WithdrawnIds(held)
  {
    releases, requirements := {}, {};
    var left := held.Keys;
    ghost var read: Files := map[];
    while left != {}
      invariant left <= held.Keys
      invariant read.Keys == held.Keys - left
      invariant forall v | v in read :: read[v] == held[v]
      invariant releases == WithdrawnReleases(read)
      invariant requirements == WithdrawnIds(read)
      decreases left
    {
      var v :| v in left;
      left := left - {v};
      var document := held[v];
      WithdrawnReleasesStep(read, v, document);
      WithdrawnIdsStep(read, v, document);
      if Given(document.release.withdrawn) {
        releases := releases + {document.release.version};
      }
      releases := releases + document.withdraws.Keys;
      requirements := requirements + Ids(document.withdrawnRequirements);
      requirements := requirements
        + (set id | id in document.requirements && document.requirements[id].Gone?);
      read := read[v := document];
    }
    assert read == held;
  }

  lemma WithdrawnReleasesStep(read: Files, v: Version, document: Document)
    requires v !in read
    ensures WithdrawnReleases(read[v := document])
            == WithdrawnReleases(read)
               + (if Given(document.release.withdrawn) then {document.release.version} else {})
               + document.withdraws.Keys
  {
    var grown := read[v := document];
    var own := if Given(document.release.withdrawn) then {document.release.version} else {};
    forall u | u in WithdrawnReleases(read) + own + document.withdraws.Keys
      ensures u in WithdrawnReleases(grown)
    {
      if u in document.withdraws {
        assert v in grown && u in grown[v].withdraws;
      } else if u in WithdrawnReleases(read) {
        if w :| w in read && Given(read[w].release.withdrawn) && read[w].release.version == u {
          assert w in grown && grown[w] == read[w];
        } else {
          var w :| w in read && u in read[w].withdraws;
          assert w in grown && u in grown[w].withdraws;
        }
      } else {
        assert grown[v].release.version == u;
      }
    }
  }

  lemma WithdrawnIdsStep(read: Files, v: Version, document: Document)
    requires v !in read
    ensures WithdrawnIds(read[v := document])
            == WithdrawnIds(read)
               + Ids(document.withdrawnRequirements)
               + (set id | id in document.requirements && document.requirements[id].Gone?)
  {
    var grown := read[v := document];
    forall id | id in WithdrawnIds(read)
      ensures id in WithdrawnIds(grown)
    {
      if w :| w in read && id in read[w].withdrawnRequirements {
        assert w in grown && id in grown[w].withdrawnRequirements;
      } else {
        var w :| w in read && id in read[w].requirements && read[w].requirements[id].Gone?;
        assert w in grown && id in grown[w].requirements && grown[w].requirements[id].Gone?;
      }
    }
    forall id | id in document.withdrawnRequirements || (id in document.requirements && document.requirements[id].Gone?)
      ensures id in WithdrawnIds(grown)
    {
      assert v in grown && grown[v] == document;
    }
  }

  predicate CitedByFiles(held: Files, id: string) {
    exists v :: v in held && id in CitedIn(held[v].release)
  }

  // ------------------------------------------------------ what is written

  function Missing(releases: seq<Release>, held: Files): (missing: seq<Release>)
    ensures forall one :: one in missing <==> one in releases && one.version !in held
  {
    if releases == [] then []
    else
      var rest, last := Missing(releases[..|releases| - 1], held), releases[|releases| - 1];
      assert forall one :: one in releases <==> one in releases[..|releases| - 1] || one == last;
      if last.version in held then rest else rest + [last]
  }

  function Newest(missing: seq<Release>): (v: Version)
    requires missing != []
    ensures exists i :: 0 <= i < |missing| && missing[i].version == v
    ensures forall one | one in missing :: !Older(v, one.version)
  {
    if |missing| == 1 then
      assert missing[0].version == missing[0].version;
      missing[0].version
    else
      var rest, last := missing[..|missing| - 1], missing[|missing| - 1];
      var v := Newest(rest);
      assert forall one | one in missing :: one in rest || one == last;
      assert missing[|missing| - 1].version == last.version;
      assert exists i :: 0 <= i < |missing| && missing[i].version == v by {
        var i :| 0 <= i < |rest| && rest[i].version == v;
        assert missing[i].version == v;
      }
      if Older(v, last.version) then last.version else v
  }

  /** Of the releases that have a file, those now withdrawn and not said to be by any file. */
  function LateWithdraws(releases: seq<Release>, held: Files, already: set<Version>): map<Version, string> {
    if releases == [] then map[]
    else
      var rest, last := LateWithdraws(releases[..|releases| - 1], held, already), releases[|releases| - 1];
      if last.version in held && Given(last.withdrawn) && last.version !in already
      then rest[last.version := last.withdrawn.value]
      else rest
  }

  /** The withdrawn requirements a kept release cites and no kept file records yet. */
  function LateRequirements(record: Record, held: Files, already: set<string>): set<string> {
    set id | id in record.requirements && record.requirements[id].about.Gone?
             && id !in already && CitedByFiles(held, id)
  }

  /** Whether the record holds every requirement `releases` cite. */
  predicate Quotes(record: Record, releases: seq<Release>) {
    forall one, id | one in releases && id in CitedIn(one) :: id in record.requirements
  }

  /** The file of one missing release; the newest of them carries what came late. */
  function DocumentOf(record: Record, held: Files, release: Release, carries: bool): Document
    requires Quotes(record, [release])
  {
    assert release in [release];
    Document(release,
             map id | id in CitedIn(release) :: record.requirements[id].about,
             if carries then LateWithdraws(record.releases, held, WithdrawnReleases(held)) else map[],
             if carries then SortedTexts(LateRequirements(record, held, WithdrawnIds(held))) else [])
  }

  function Written(record: Record, held: Files, missing: seq<Release>, newest: Version): Files
    requires Quotes(record, missing)
  {
    if missing == [] then map[]
    else
      var rest, last := missing[..|missing| - 1], missing[|missing| - 1];
      assert forall one | one in rest :: one in missing;
      assert last in missing;
      Written(record, held, rest, newest)[last.version := DocumentOf(record, held, last, last.version == newest)]
  }

  /** `unwritten`: one file for each release of the record that has none yet. */
  function Unwritten(record: Record, held: Files): Files
    requires Quotes(record, Missing(record.releases, held))
  {
    var missing := Missing(record.releases, held);
    if missing == [] then map[] else Written(record, held, missing, Newest(missing))
  }

  /** `unwritten` as the script computes it; a citation the record lacks stops it. */
  method Unwrite(record: Record, held: Files) returns (r: Result<Files, Refusal>)
    ensures r.Ok? <==> Quotes(record, Missing(record.releases, held))
    ensures r.Ok? ==> r.value == Unwritten(record, held)
  {
    hide Missing, Newest, CitedIn, WithdrawnReleases, WithdrawnIds, LateWithdraws, LateRequirements;
    hide Written, DocumentOf;
    var missing := MissingFrom(record.releases, held);
    if missing == [] {
      return Ok(map[]);
    }
    var newest := Newest(missing);
    var releases, ids := RecordedWithdrawn(held);
    var late := LateWithdraws(record.releases, held, releases);
    var lateIds := SortedTexts(LateRequirements(record, held, ids));
    r := EachWritten(record, held, missing, newest, late, lateIds);
  }

  method MissingFrom(releases: seq<Release>, held: Files) returns (missing: seq<Release>)
    ensures missing == Missing(releases, held)
  {
    missing := [];
    for i := 0 to |releases|
      invariant missing == Missing(releases[..i], held)
    {
      assert releases[..i + 1][..i] == releases[..i];
      if releases[i].version !in held {
        missing := missing + [releases[i]];
      }
    }
    assert releases[..|releases|] == releases;
  }

  method EachWritten(record: Record, held: Files, missing: seq<Release>, newest: Version,
                     late: map<Version, string>, lateIds: seq<string>) returns (r: Result<Files, Refusal>)
    requires late == LateWithdraws(record.releases, held, WithdrawnReleases(held))
    requires lateIds == SortedTexts(LateRequirements(record, held, WithdrawnIds(held)))
    ensures r.Ok? <==> Quotes(record, missing)
    ensures r.Ok? ==> r.value == Written(record, held, missing, newest)
  {
    hide CitedIn, WithdrawnReleases, WithdrawnIds, LateWithdraws, LateRequirements, SortedTexts;
    var written: Files := map[];
    for i := 0 to |missing|
      invariant Quotes(record, missing[..i])
      invariant written == Written(record, held, missing[..i], newest)
    {
      var release := missing[i];
      assert missing[..i + 1][..i] == missing[..i];
      assert forall one | one in missing[..i + 1] :: one in missing[..i] || one == release;
      assert release in missing;
      var document := WrittenOne(record, held, release, release.version == newest, late, lateIds);
      if document.Err? {
        assert !Quotes(record, missing) by {
          assert !Quotes(record, [release]);
        }
        return Err(NoRequirement);
      }
      written := written[release.version := document.value];
    }
    assert missing[..|missing|] == missing;
    r := Ok(written);
  }

  method WrittenOne(record: Record, held: Files, release: Release, carries: bool,
                    late: map<Version, string>, lateIds: seq<string>) returns (r: Result<Document, Refusal>)
    requires late == LateWithdraws(record.releases, held, WithdrawnReleases(held))
    requires lateIds == SortedTexts(LateRequirements(record, held, WithdrawnIds(held)))
    ensures r.Ok? <==> Quotes(record, [release])
    ensures r.Ok? ==> r.value == DocumentOf(record, held, release, carries)
  {
    hide CitedIn, WithdrawnReleases, WithdrawnIds, LateWithdraws, LateRequirements, SortedTexts;
    var cited := Cited(release);
    if id :| id in cited && id !in record.requirements {
      assert release in [release];
      return Err(NoRequirement);
    }
    var document := Document(release, map id | id in cited :: record.requirements[id].about, map[], []);
    if carries {
      document := document.(withdraws := late, withdrawnRequirements := lateIds);
    }
    r := Ok(document);
  }

  /** The directory of release files. */
  class Directory {
    var files: Files

    constructor ()
      ensures files == map[]
    {
      files := map[];
    }

    /** `write`: adds every file the directory lacks, oldest first, and touches none it holds. */
    method Write(record: Record) returns (r: Result<seq<Version>, Refusal>)
      modifies this
      ensures r.Ok? <==> Quotes(record, Missing(record.releases, old(files)))
      ensures r.Err? ==> files == old(files)
      ensures r.Ok? ==> files == old(files) + Unwritten(record, old(files))
      ensures r.Ok? ==> r.value == Oldest(Unwritten(record, old(files)).Keys)
    {
      hide Quotes, Missing, Oldest, Unwritten;
      var added := Unwrite(record, files);
      if added.Err? {
        return Err(NoRequirement);
      }
      var order := Oldest(added.value.Keys);
      WriteEach(order, added.value);
      r := Ok(order);
    }

    method WriteEach(order: seq<Version>, added: Files)
      requires forall v :: v in order <==> v in added
      modifies this
      ensures files == old(files) + added
    {
      for i := 0 to |order|
        invariant files == old(files) + Of(added, order[..i])
      {
        assert order[..i + 1] == order[..i] + [order[i]];
        files := files[order[i] := added[order[i]]];
      }
      assert order[..|order|] == order;
    }
  }

  function Of(added: Files, order: seq<Version>): Files {
    map v | v in added && v in order :: added[v]
  }

  // ------------------------------------------------------------ the fold

  /** `releases_of`: the kept files, newest release first. */
  function ReleasesOf(held: Files): (r: seq<Document>)
    ensures |r| == |Latest(held.Keys)|
    ensures forall i | 0 <= i < |r| :: Latest(held.Keys)[i] in held && r[i] == held[Latest(held.Keys)[i]]
  {
    var versions := Latest(held.Keys);
    seq(|versions|, i requires 0 <= i < |versions| => assert versions[i] in versions; held[versions[i]])
  }

  function Withdraws(documents: seq<Document>): map<Version, string> {
    if documents == [] then map[]
    else Withdraws(documents[..|documents| - 1]) + documents[|documents| - 1].withdraws
  }

  function GoneIn(documents: seq<Document>): set<string> {
    if documents == [] then {}
    else GoneIn(documents[..|documents| - 1]) + Ids(documents[|documents| - 1].withdrawnRequirements)
  }

  /** Each requirement as the first of `documents` that cites it has it. */
  function FirstTold(documents: seq<Document>): map<string, About> {
    if documents == [] then map[]
    else documents[|documents| - 1].requirements + FirstTold(documents[..|documents| - 1])
  }

  /** A release with the reason for withdrawing it filled in, if only another file gives one. */
  function TakenBack(release: Release, withdraws: map<Version, string>): Release {
    if Given(release.withdrawn) then release
    else release.(withdrawn := if release.version in withdraws then Some(withdraws[release.version]) else None)
  }

  function Folded(documents: seq<Document>, withdraws: map<Version, string>): seq<Release> {
    if documents == [] then []
    else Folded(documents[..|documents| - 1], withdraws) + [TakenBack(documents[|documents| - 1].release, withdraws)]
  }

  /** The releases among `documents` whose entries cite `id`. */
  function ShippedIn(documents: seq<Document>, id: string): seq<Version> {
    if documents == [] then []
    else
      var rest, last := ShippedIn(documents[..|documents| - 1], id), documents[|documents| - 1];
      if id in CitedIn(last.release) then rest + [last.release.version] else rest
  }

  function Marked(about: About, gone: bool): About {
    if gone then Gone(about.feature) else about
  }

  function Requirements(documents: seq<Document>): map<string, Requirement> {
    map id | id in FirstTold(documents) ::
      Requirement(Marked(FirstTold(documents)[id], id in GoneIn(documents)), ShippedIn(documents, id))
  }

  /** `assembled`: the fold of all the files into one record. */
  function Assembled(held: Files): Record {
    var documents := ReleasesOf(held);
    Record(Folded(documents, Withdraws(documents)), Requirements(documents))
  }

  /** `assembled` as the script computes it: one pass to gather, one to list, one to mark. */
  method Assemble(held: Files) returns (record: Record)
    ensures record == Assembled(held)
  {
    hide Latest, ReleasesOf, Withdraws, GoneIn, FirstTold, Folded, ShippedIn;
    var documents := ReleasesOf(held);
    var withdraws, gone, requirements := Told(documents);
    var releases;
    releases, requirements := Listed(documents, withdraws, requirements);
    requirements := MarkedGone(requirements, gone);
    record := Record(releases, requirements);
    assert record.requirements == Requirements(documents);
  }

  method Told(documents: seq<Document>)
    returns (withdraws: map<Version, string>, gone: set<string>, requirements: map<string, Requirement>)
    ensures withdraws == Withdraws(documents)
    ensures gone == GoneIn(documents)
    ensures requirements == map id | id in FirstTold(documents) :: Requirement(FirstTold(documents)[id], [])
  {
    withdraws, gone, requirements := map[], {}, map[];
    for i := 0 to |documents|
      invariant withdraws == Withdraws(documents[..i])
      invariant gone == GoneIn(documents[..i])
      invariant requirements
        == map id | id in FirstTold(documents[..i]) :: Requirement(FirstTold(documents[..i])[id], [])
    {
      var document := documents[i];
      assert documents[..i + 1][..i] == documents[..i];
      withdraws := withdraws + document.withdraws;
      gone := gone + Ids(document.withdrawnRequirements);
      requirements := (map id | id in document.requirements :: Requirement(document.requirements[id], []))
        + requirements;
    }
    assert documents[..|documents|] == documents;
  }

  method Listed(documents: seq<Document>, withdraws: map<Version, string>, given: map<string, Requirement>)
    returns (releases: seq<Release>, requirements: map<string, Requirement>)
    requires forall id | id in given :: given[id].shippedIn == []
    ensures releases == Folded(documents, withdraws)
    ensures requirements == map id | id in given :: given[id].(shippedIn := ShippedIn(documents, id))
  {
    releases, requirements := [], given;
    for i := 0 to |documents|
      invariant releases == Folded(documents[..i], withdraws)
      invariant requirements == map id | id in given :: given[id].(shippedIn := ShippedIn(documents[..i], id))
    {
      var document := documents[i];
      assert documents[..i + 1][..i] == documents[..i];
      releases := releases + [TakenBack(document.release, withdraws)];
      var cited := Cited(document.release);
      forall j, k | 0 <= j < k < |cited|
        ensures cited[j] != cited[k]
      {
        OnceInOrder(Mentioned(document.release.groups), j, k);
      }
      requirements := Shipped(requirements, cited, document.release.version);
    }
    assert documents[..|documents|] == documents;
  }

  /** Adds `version` to each requirement the release cites. */
  method Shipped(given: map<string, Requirement>, cited: seq<string>, version: Version)
    returns (requirements: map<string, Requirement>)
    requires forall i, j | 0 <= i < j < |cited| :: cited[i] != cited[j]
    ensures requirements == map id | id in given ::
      if id in cited then given[id].(shippedIn := given[id].shippedIn + [version]) else given[id]
  {
    requirements := given;
    for i := 0 to |cited|
      invariant requirements == map id | id in given ::
        if id in cited[..i] then given[id].(shippedIn := given[id].shippedIn + [version]) else given[id]
    {
      var id := cited[i];
      assert cited[..i + 1] == cited[..i] + [id];
      if id in requirements {
        requirements := requirements[id := requirements[id].(shippedIn := requirements[id].shippedIn + [version])];
      }
    }
    assert cited[..|cited|] == cited;
  }

  method MarkedGone(given: map<string, Requirement>, gone: set<string>) returns (requirements: map<string, Requirement>)
    ensures requirements == map id | id in given :: given[id].(about := Marked(given[id].about, id in gone))
  {
    requirements := given;
    var left := gone * given.Keys;
    while left != {}
      invariant left <= gone * given.Keys
      invariant requirements
        == map id | id in given :: given[id].(about := Marked(given[id].about, id in gone && id !in left))
      decreases left
    {
      var id :| id in left;
      left := left - {id};
      requirements := requirements[id := requirements[id].(about := Gone(requirements[id].about.feature))];
    }
  }
}
