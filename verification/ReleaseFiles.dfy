/** What each file of a release directory says, and what they fold into, entry by entry. */
module ReleaseFiles {
  import opened Outcomes
  import opened Sorting
  import opened ReleaseRecord

  // ------------------------------------------------------------ versions

  /** A version as one number, where no part of it reaches `base`. */
  function Number(v: Version, base: nat): nat {
    Scaled(Scaled(v.major, v.minor, base), v.patch, base)
  }

  function Scaled(high: nat, low: nat, base: nat): nat {
    high * base + low
  }

  predicate Below(v: Version, base: nat) {
    v.major < base && v.minor < base && v.patch < base
  }

  lemma Digitwise(a: nat, b: nat, c: nat, d: nat, base: nat)
    requires b < base && d < base
    ensures Scaled(a, b, base) < Scaled(c, d, base) <==> a < c || (a == c && b < d)
    ensures Scaled(a, b, base) == Scaled(c, d, base) <==> a == c && b == d
  {
    if a < c {
      assert (a + 1) * base <= c * base;
    } else if c < a {
      assert (c + 1) * base <= a * base;
    }
  }

  /** Versions are in the order of the numbers they are. */
  lemma OlderMeans(a: Version, b: Version, base: nat)
    requires Below(a, base) && Below(b, base)
    ensures Older(a, b) <==> Number(a, base) < Number(b, base)
  {
    hide Scaled;
    Digitwise(a.major, a.minor, b.major, b.minor, base);
    Digitwise(Scaled(a.major, a.minor, base), a.patch, Scaled(b.major, b.minor, base), b.patch, base);
  }

  // ------------------------------------------------------------ a write

  /** Whether `i` is the last of the record's releases of that version. */
  predicate LastOf(releases: seq<Release>, i: nat, v: Version) {
    i < |releases| && releases[i].version == v && forall j | i < j < |releases| :: releases[j].version != v
  }

  predicate Reasoned(release: Release) {
    release.withdrawn.Some? && release.withdrawn.value != ""
  }

  /** Whether some file says the release was taken back: its own, or one that carries it. */
  ghost predicate SaidBack(held: Files, v: Version) {
    exists u :: u in held && ((Reasoned(held[u].release) && held[u].release.version == v) || v in held[u].withdraws)
  }

  /** Whether some file says the requirement is gone: one that lists it, or one that cites it so. */
  ghost predicate SaidGone(held: Files, id: string) {
    exists u :: u in held && (id in held[u].withdrawnRequirements
                              || (id in held[u].requirements && held[u].requirements[id].Gone?))
  }

  ghost predicate CitedByKept(held: Files, id: string) {
    exists u :: u in held && Cites(held[u].release, id)
  }

  /** A new file holds its release and, of each requirement some entry cites, what the record says. */
  ghost predicate HoldsRelease(record: Record, v: Version, file: Document) {
    && (exists i: nat :: LastOf(record.releases, i, v) && file.release == record.releases[i])
    && (forall id :: id in file.requirements <==> Cites(file.release, id))
    && (forall id | id in file.requirements ::
          id in record.requirements && file.requirements[id] == record.requirements[id].about)
  }

  /** The newest new file carries each withdrawal of a release that has a file, for the record's
      reason, and each requirement gone that such a release cites, where no file says so yet. */
  ghost predicate CarriesNews(record: Record, held: Files, file: Document) {
    && (forall v :: v in file.withdraws <==>
          && v in held && !SaidBack(held, v)
          && Withdrawn(record, v))
    && (forall v | v in file.withdraws ::
          exists i :: 0 <= i < |record.releases| && record.releases[i].version == v
                      && record.releases[i].withdrawn == Some(file.withdraws[v]))
    && (forall id :: id in file.withdrawnRequirements <==>
          && id in record.requirements && record.requirements[id].about.Gone?
          && !SaidGone(held, id) && CitedByKept(held, id))
    && (forall a, b | 0 <= a < b < |file.withdrawnRequirements| ::
          Before(file.withdrawnRequirements[a], file.withdrawnRequirements[b]))
  }

  /** Whether the record has a release of that version. */
  ghost predicate InRecord(record: Record, v: Version) {
    exists i :: 0 <= i < |record.releases| && record.releases[i].version == v
  }

  /** Whether it has one, with a reason it was taken back. */
  ghost predicate Withdrawn(record: Record, v: Version) {
    exists i :: 0 <= i < |record.releases| && record.releases[i].version == v && Reasoned(record.releases[i])
  }

  /** Whether, of the files added, that of `v` carries the news if it is the newest, and none if not. */
  ghost predicate NewsWhereNewest(record: Record, held: Files, added: Files, v: Version)
    requires v in added
  {
    if exists u :: u in added && Older(v, u) then CarriesNothing(added[v]) else CarriesNews(record, held, added[v])
  }

  ghost predicate CarriesNothing(file: Document) {
    file.withdraws == map[] && file.withdrawnRequirements == []
  }

  /** Whether the record holds all that its releases without a file cite. */
  ghost predicate Known(record: Record, held: Files) {
    forall release, id | release in record.releases && release.version !in held && Cites(release, id) ::
      id in record.requirements
  }

  /** What a directory is after a write: every file there was, one for each release that had none,
      and the news in the newest of those and in no other. */
  ghost predicate WrittenAs(record: Record, held: Files, files: Files) {
    && (forall v :: v in files <==> v in held || InRecord(record, v))
    && (forall v | v in held :: v in files && files[v] == held[v])
    && (forall v | v in files && v !in held :: HoldsRelease(record, v, files[v]))
    && (forall v | v in files && v !in held ::
          if exists u :: u in files && u !in held && Older(v, u) then CarriesNothing(files[v])
          else CarriesNews(record, held, files[v]))
  }

  lemma QuotesMeans(record: Record, held: Files)
    ensures Quotes(record, Missing(record.releases, held)) <==> Known(record, held)
  {
    var missing := Missing(record.releases, held);
    hide Missing, CitedIn, Cites;
    forall release, id
      ensures id in CitedIn(release) <==> Cites(release, id)
    {
      CitedSomewhere(release, id);
    }
  }

  lemma {:induction false} WrittenEach(record: Record, held: Files, missing: seq<Release>, newest: Version)
    requires Quotes(record, missing)
    ensures forall v :: v in Written(record, held, missing, newest) <==>
                          exists i :: 0 <= i < |missing| && missing[i].version == v
    ensures forall i: nat, v | LastOf(missing, i, v) ::
              && v in Written(record, held, missing, newest)
              && Quotes(record, [missing[i]])
              && Written(record, held, missing, newest)[v] == DocumentOf(record, held, missing[i], v == newest)
  {
    hide DocumentOf, CitedIn;
    if missing != [] {
      var rest, last := missing[..|missing| - 1], missing[|missing| - 1];
      assert forall one | one in rest :: one in missing;
      assert last in missing;
      WrittenEach(record, held, rest, newest);
      assert forall i | 0 <= i < |rest| :: rest[i] == missing[i];
      forall i: nat, v | LastOf(missing, i, v)
        ensures v in Written(record, held, missing, newest)
        ensures Quotes(record, [missing[i]])
        ensures Written(record, held, missing, newest)[v] == DocumentOf(record, held, missing[i], v == newest)
      {
        if i < |rest| {
          assert LastOf(rest, i, v);
          assert last.version != v;
        }
      }
    }
  }

  lemma {:induction false} LastThere(releases: seq<Release>, v: Version) returns (i: nat)
    requires exists k :: 0 <= k < |releases| && releases[k].version == v
    ensures LastOf(releases, i, v)
  {
    var rest := releases[..|releases| - 1];
    if releases[|releases| - 1].version == v {
      i := |releases| - 1;
    } else {
      var k :| 0 <= k < |releases| && releases[k].version == v;
      assert rest[k].version == v;
      i := LastThere(rest, v);
    }
  }

  /** The last missing release of a version is the record's last of it. */
  lemma {:induction false} LastMissing(releases: seq<Release>, held: Files, i: nat, v: Version)
    requires v !in held && LastOf(releases, i, v)
    ensures exists k: nat :: LastOf(Missing(releases, held), k, v) && Missing(releases, held)[k] == releases[i]
  {
    var rest, last := releases[..|releases| - 1], releases[|releases| - 1];
    var missing := Missing(releases, held);
    if i == |rest| {
      assert missing[|missing| - 1] == last;
      assert LastOf(missing, |missing| - 1, v);
    } else {
      assert LastOf(rest, i, v);
      LastMissing(rest, held, i, v);
      var k: nat :| LastOf(Missing(rest, held), k, v) && Missing(rest, held)[k] == rest[i];
      assert LastOf(missing, k, v);
    }
  }

  lemma {:induction false} LateMeans(releases: seq<Release>, held: Files, already: set<Version>)
    ensures forall v :: v in LateWithdraws(releases, held, already) <==>
              v in held && v !in already
              && exists i :: 0 <= i < |releases| && releases[i].version == v && Reasoned(releases[i])
    ensures forall v | v in LateWithdraws(releases, held, already) ::
              exists i :: 0 <= i < |releases| && releases[i].version == v
                          && releases[i].withdrawn == Some(LateWithdraws(releases, held, already)[v])
  {
    if releases != [] {
      var rest, last := releases[..|releases| - 1], releases[|releases| - 1];
      LateMeans(rest, held, already);
      assert forall i | 0 <= i < |rest| :: rest[i] == releases[i];
      assert releases[|rest|] == last;
    }
  }

  lemma SaidMeans(held: Files)
    ensures forall v :: v in WithdrawnReleases(held) <==> SaidBack(held, v)
    ensures forall id :: id in WithdrawnIds(held) <==> SaidGone(held, id)
  {
  }

  lemma KeptMeans(held: Files, id: string)
    ensures CitedByFiles(held, id) <==> CitedByKept(held, id)
  {
    hide CitedIn, Cites;
    forall release
      ensures id in CitedIn(release) <==> Cites(release, id)
    {
      CitedSomewhere(release, id);
    }
  }

  lemma BackMeans(record: Record, held: Files)
    ensures var late := LateWithdraws(record.releases, held, WithdrawnReleases(held));
            && (forall v :: v in late <==>
                  && v in held && !SaidBack(held, v)
                  && Withdrawn(record, v))
            && (forall v | v in late ::
                  exists i :: 0 <= i < |record.releases| && record.releases[i].version == v
                              && record.releases[i].withdrawn == Some(late[v]))
  {
    LateMeans(record.releases, held, WithdrawnReleases(held));
    SaidMeans(held);
    hide LateWithdraws, WithdrawnReleases, WithdrawnIds, SaidBack, SaidGone, Reasoned;
  }

  lemma GoneMeans(record: Record, held: Files)
    ensures var late := SortedTexts(LateRequirements(record, held, WithdrawnIds(held)));
            && (forall id :: id in late <==>
                  && id in record.requirements && record.requirements[id].about.Gone?
                  && !SaidGone(held, id) && CitedByKept(held, id))
            && (forall a, b | 0 <= a < b < |late| :: Before(late[a], late[b]))
  {
    SaidMeans(held);
    hide WithdrawnReleases, WithdrawnIds, SaidBack, SaidGone, Before;
    forall id
      ensures CitedByFiles(held, id) <==> CitedByKept(held, id)
    {
      KeptMeans(held, id);
    }
    hide CitedByFiles, CitedByKept;
  }

  lemma NewsMeans(record: Record, held: Files, release: Release)
    requires Quotes(record, [release])
    ensures CarriesNews(record, held, DocumentOf(record, held, release, true))
    ensures CarriesNothing(DocumentOf(record, held, release, false))
  {
    BackMeans(record, held);
    GoneMeans(record, held);
    hide LateWithdraws, LateRequirements, WithdrawnReleases, WithdrawnIds, CitedIn, SaidBack, SaidGone, Reasoned,
         CitedByKept, SortedTexts, Before, Quotes;
  }

  lemma ReleaseHeld(record: Record, held: Files, release: Release, carries: bool)
    requires Quotes(record, [release])
    ensures var file := DocumentOf(record, held, release, carries);
            && file.release == release
            && (forall id :: id in file.requirements <==> Cites(release, id))
            && (forall id | id in file.requirements ::
                  id in record.requirements && file.requirements[id] == record.requirements[id].about)
  {
    hide CitedIn, Cites, LateWithdraws, LateRequirements, WithdrawnReleases, WithdrawnIds, SortedTexts;
    forall id
      ensures id in CitedIn(release) <==> Cites(release, id)
    {
      CitedSomewhere(release, id);
    }
    assert release in [release];
  }

  /** A write leaves the directory as it should be: it goes through where the record holds all that is
      cited, and then the directory is as said. */
  lemma WriteMeans(record: Record, held: Files)
    ensures Quotes(record, Missing(record.releases, held)) <==> Known(record, held)
    ensures Known(record, held) ==> WrittenAs(record, held, held + Unwritten(record, held))
  {
    QuotesMeans(record, held);
    if Known(record, held) {
      var added := Unwritten(record, held);
      hide Quotes, HoldsRelease, CarriesNews, CarriesNothing, Unwritten, Known, Missing, Older;
      forall v
        ensures v in added <==> v !in held && InRecord(record, v)
      {
        AddedEach(record, held, v);
      }
      forall v | v in added
        ensures HoldsRelease(record, v, added[v])
        ensures NewsWhereNewest(record, held, added, v)
      {
        NewFile(record, held, v);
      }
      WrittenWhole(record, held, added);
    }
  }

  /** What is said of the files added is said of the directory they are added to. */
  lemma WrittenWhole(record: Record, held: Files, added: Files)
    requires forall v :: v in added <==> v !in held && InRecord(record, v)
    requires forall v | v in added :: HoldsRelease(record, v, added[v])
    requires forall v | v in added ::
               NewsWhereNewest(record, held, added, v)
    ensures WrittenAs(record, held, held + added)
  {
    hide HoldsRelease, CarriesNews, CarriesNothing, Older;
    var files := held + added;
    assert forall v :: v in files && v !in held <==> v in added;
    assert forall v | v in added :: files[v] == added[v];
  }

  lemma AddedEach(record: Record, held: Files, v: Version)
    requires Quotes(record, Missing(record.releases, held))
    ensures v in Unwritten(record, held)
       <==> v !in held && InRecord(record, v)
  {
    var missing := Missing(record.releases, held);
    if missing != [] {
      WrittenEach(record, held, missing, Newest(missing));
    }
    hide Missing, Written, Newest, Quotes;
    if i :| 0 <= i < |missing| && missing[i].version == v {
      assert missing[i] in missing;
      var k :| 0 <= k < |record.releases| && record.releases[k] == missing[i];
    }
    if v !in held && InRecord(record, v) {
      var i :| 0 <= i < |record.releases| && record.releases[i].version == v;
      assert record.releases[i] in missing;
      var k :| 0 <= k < |missing| && missing[k] == record.releases[i];
    }
  }

  lemma WrittenAt(record: Record, held: Files, missing: seq<Release>, newest: Version, k: nat, v: Version)
    requires Quotes(record, missing) && LastOf(missing, k, v) && k < |missing|
    ensures v in Written(record, held, missing, newest)
    ensures Quotes(record, [missing[k]])
    ensures Written(record, held, missing, newest)[v] == DocumentOf(record, held, missing[k], v == newest)
  {
    hide DocumentOf, Quotes, Written;
    WrittenEach(record, held, missing, newest);
  }

  lemma MissingAt(releases: seq<Release>, held: Files, v: Version) returns (i: nat, k: nat)
    requires v !in held && exists j :: 0 <= j < |releases| && releases[j].version == v
    ensures LastOf(releases, i, v) && LastOf(Missing(releases, held), k, v)
    ensures i < |releases| && k < |Missing(releases, held)|
    ensures Missing(releases, held)[k] == releases[i]
  {
    hide Missing;
    i := LastThere(releases, v);
    LastMissing(releases, held, i, v);
    k :| LastOf(Missing(releases, held), k, v) && Missing(releases, held)[k] == releases[i];
  }

  lemma NewDocument(record: Record, held: Files, v: Version) returns (i: nat)
    requires Quotes(record, Missing(record.releases, held))
    requires v in Unwritten(record, held)
    ensures i < |record.releases| && LastOf(record.releases, i, v) && Quotes(record, [record.releases[i]])
    ensures Missing(record.releases, held) != []
    ensures Unwritten(record, held)[v]
            == DocumentOf(record, held, record.releases[i], v == Newest(Missing(record.releases, held)))
  {
    hide DocumentOf, Missing, Newest, Written, Quotes, LastOf, Cites, CitedIn;
    var missing := Missing(record.releases, held);
    assert missing != [];
    var newest := Newest(missing);
    assert Unwritten(record, held) == Written(record, held, missing, newest);
    hide Unwritten;
    AddedEach(record, held, v);
    var k;
    i, k := MissingAt(record.releases, held, v);
    WrittenAt(record, held, missing, newest, k, v);
  }

  lemma NewFile(record: Record, held: Files, v: Version)
    requires Quotes(record, Missing(record.releases, held))
    requires v in Unwritten(record, held)
    ensures var added := Unwritten(record, held);
            && HoldsRelease(record, v, added[v])
            && NewsWhereNewest(record, held, added, v)
  {
    hide DocumentOf, Missing, Newest, Unwritten, Quotes, CarriesNews, CarriesNothing, Cites, Older, HoldsRelease;
    var i := NewDocument(record, held, v);
    var release := record.releases[i];
    ReleaseHeld(record, held, release, v == Newest(Missing(record.releases, held)));
    NewsMeans(record, held, release);
    NewestAdded(record, held, v);
    HoldsIt(record, v, i, Unwritten(record, held)[v]);
  }

  lemma HoldsIt(record: Record, v: Version, i: nat, file: Document)
    requires LastOf(record.releases, i, v) && file.release == record.releases[i]
    requires forall id :: id in file.requirements <==> Cites(file.release, id)
    requires forall id | id in file.requirements ::
               id in record.requirements && file.requirements[id] == record.requirements[id].about
    ensures HoldsRelease(record, v, file)
  {
    hide Cites;
  }

  lemma NewestAdded(record: Record, held: Files, v: Version)
    requires Quotes(record, Missing(record.releases, held))
    requires v in Unwritten(record, held)
    ensures (exists u :: u in Unwritten(record, held) && Older(v, u)) <==> v != Newest(Missing(record.releases, held))
  {
    var missing := Missing(record.releases, held);
    var newest := Newest(missing);
    WrittenEach(record, held, missing, newest);
    hide Missing, Newest, Written, Quotes;
    assert newest in Unwritten(record, held);
    var k :| 0 <= k < |missing| && missing[k].version == v;
    assert missing[k] in missing;
    assert !Older(newest, v);
    if u :| u in Unwritten(record, held) && Older(v, u) {
      var j :| 0 <= j < |missing| && missing[j].version == u;
      assert missing[j] in missing;
    }
  }

  // ------------------------------------------------------------ the fold

  /** Whether `u` is the oldest file that carries a withdrawal of `v`. */
  ghost predicate OldestCarries(held: Files, u: Version, v: Version) {
    && u in held && v in held[u].withdraws
    && forall x | x in held && v in held[x].withdraws :: x == u || Older(u, x)
  }

  /** Whether `u` is the newest file that says what the requirement is. */
  ghost predicate NewestTells(held: Files, u: Version, id: string) {
    && u in held && id in held[u].requirements
    && forall x | x in held && id in held[x].requirements :: x == u || Older(x, u)
  }

  /** A release as its file has it, taken back for its file's own reason, or else for that of the
      oldest file that carries one. */
  ghost predicate ReleaseAs(held: Files, kept: Release, folded: Release) {
    && folded == kept.(withdrawn := folded.withdrawn)
    && (Reasoned(kept) ==> folded.withdrawn == kept.withdrawn)
    && (!Reasoned(kept) ==>
          && (forall u | OldestCarries(held, u, kept.version) ::
                folded.withdrawn == Some(held[u].withdraws[kept.version]))
          && ((forall u | u in held :: kept.version !in held[u].withdraws) ==> folded.withdrawn.None?))
  }

  /** A requirement as the newest file that tells of it has it, but gone if any file lists it. */
  ghost predicate AboutAs(held: Files, id: string, about: About) {
    forall u | NewestTells(held, u, id) ::
      if exists x :: x in held && id in held[x].withdrawnRequirements
      then about == Gone(held[u].requirements[id].feature)
      else about == held[u].requirements[id]
  }

  /** Whether `shipped` are the releases of the files at `places` among `versions`, those that cite. */
  ghost predicate ShippedAs(held: Files, versions: seq<Version>, id: string, shipped: seq<Version>, places: seq<nat>)
    requires forall v | v in versions :: v in held
  {
    && |shipped| == |places|
    && (forall a, b | 0 <= a < b < |places| :: places[a] < places[b])
    && (forall a | 0 <= a < |places| ::
          places[a] < |versions| && shipped[a] == held[versions[places[a]]].release.version)
    && (forall p | 0 <= p < |versions| :: p in places <==> Cites(held[versions[p]].release, id))
  }

  /** The record a directory folds into, `versions` being its files' newest first. */
  ghost predicate FoldedAs(held: Files, versions: seq<Version>, record: Record) {
    && (forall v :: v in versions <==> v in held)
    && (forall i, j | 0 <= i < j < |versions| :: Older(versions[j], versions[i]))
    && |record.releases| == |versions|
    && (forall i | 0 <= i < |versions| ::
          versions[i] in versions && ReleaseAs(held, held[versions[i]].release, record.releases[i]))
    && (forall id :: id in record.requirements <==> exists u :: u in held && id in held[u].requirements)
    && (forall id | id in record.requirements ::
          && AboutAs(held, id, record.requirements[id].about)
          && exists places :: ShippedAs(held, versions, id, record.requirements[id].shippedIn, places))
  }

  lemma {:induction false} LastCarrying(documents: seq<Document>, v: Version) returns (i: nat)
    requires v in Withdraws(documents)
    ensures i < |documents| && v in documents[i].withdraws
    ensures Withdraws(documents)[v] == documents[i].withdraws[v]
    ensures forall j | i < j < |documents| :: v !in documents[j].withdraws
  {
    var init, last := documents[..|documents| - 1], documents[|documents| - 1];
    if v in last.withdraws {
      i := |init|;
    } else {
      i := LastCarrying(init, v);
      assert init[i] == documents[i];
      assert forall j | i < j < |init| :: init[j] == documents[j];
    }
  }

  lemma {:induction false} NoneCarrying(documents: seq<Document>, v: Version)
    requires v !in Withdraws(documents)
    ensures forall i | 0 <= i < |documents| :: v !in documents[i].withdraws
  {
    if documents != [] {
      var init := documents[..|documents| - 1];
      NoneCarrying(init, v);
      assert forall i | 0 <= i < |init| :: init[i] == documents[i];
    }
  }

  lemma WithdrawsAt(documents: seq<Document>, v: Version)
    ensures v in Withdraws(documents) <==> exists i :: 0 <= i < |documents| && v in documents[i].withdraws
    ensures v in Withdraws(documents) ==>
              exists i :: 0 <= i < |documents| && v in documents[i].withdraws
                          && Withdraws(documents)[v] == documents[i].withdraws[v]
                          && forall j | i < j < |documents| :: v !in documents[j].withdraws
  {
    hide Withdraws;
    if v in Withdraws(documents) {
      var i := LastCarrying(documents, v);
    } else {
      NoneCarrying(documents, v);
    }
  }

  lemma {:induction false} ToldAt(documents: seq<Document>, id: string)
    ensures id in FirstTold(documents) <==> exists i :: 0 <= i < |documents| && id in documents[i].requirements
    ensures id in FirstTold(documents) ==>
              exists i :: 0 <= i < |documents| && id in documents[i].requirements
                          && FirstTold(documents)[id] == documents[i].requirements[id]
                          && forall j | 0 <= j < i :: id !in documents[j].requirements
  {
    if documents != [] {
      var init, last := documents[..|documents| - 1], documents[|documents| - 1];
      ToldAt(init, id);
      assert forall i | 0 <= i < |init| :: init[i] == documents[i];
      if id in FirstTold(init) {
        var i :| 0 <= i < |init| && id in init[i].requirements && FirstTold(init)[id] == init[i].requirements[id]
                 && forall j | 0 <= j < i :: id !in init[j].requirements;
        assert documents[i] == init[i];
      } else if id in last.requirements {
        assert documents[|init|] == last;
      }
    }
  }

  lemma {:induction false} GoneAt(documents: seq<Document>, id: string)
    ensures id in GoneIn(documents) <==> exists i :: 0 <= i < |documents| && id in documents[i].withdrawnRequirements
  {
    if documents != [] {
      var init := documents[..|documents| - 1];
      GoneAt(init, id);
      assert forall i | 0 <= i < |init| :: init[i] == documents[i];
    }
  }

  lemma {:induction false} FoldedAt(documents: seq<Document>, withdraws: map<Version, string>)
    ensures |Folded(documents, withdraws)| == |documents|
    ensures forall i | 0 <= i < |documents| ::
              Folded(documents, withdraws)[i] == TakenBack(documents[i].release, withdraws)
  {
    if documents != [] {
      FoldedAt(documents[..|documents| - 1], withdraws);
    }
  }

  lemma {:induction false} ShippedAt(documents: seq<Document>, id: string) returns (places: seq<nat>)
    ensures |ShippedIn(documents, id)| == |places|
    ensures forall a, b | 0 <= a < b < |places| :: places[a] < places[b]
    ensures forall a | 0 <= a < |places| ::
              places[a] < |documents| && ShippedIn(documents, id)[a] == documents[places[a]].release.version
    ensures forall p | 0 <= p < |documents| :: p in places <==> Cites(documents[p].release, id)
  {
    hide CitedIn, Cites;
    places := [];
    if documents != [] {
      var init, last := documents[..|documents| - 1], documents[|documents| - 1];
      places := ShippedAt(init, id);
      CitedSomewhere(last.release, id);
      assert forall p | p in places :: p < |init|;
      if id in CitedIn(last.release) {
        places := places + [|init|];
      }
    }
  }

  /** Whether `documents` are the files of `held`, newest first, under `versions`. */
  ghost predicate Lists(held: Files, versions: seq<Version>, documents: seq<Document>) {
    && |documents| == |versions|
    && (forall v :: v in versions <==> v in held)
    && (forall i, j | 0 <= i < j < |versions| :: Older(versions[j], versions[i]))
    && (forall i | 0 <= i < |versions| :: versions[i] in held && documents[i] == held[versions[i]])
  }

  lemma ReleasesListed(held: Files)
    ensures Lists(held, Latest(held.Keys), ReleasesOf(held))
  {
    hide Older, Latest, ReleasesOf;
    assert forall i | 0 <= i < |Latest(held.Keys)| :: Latest(held.Keys)[i] in held;
  }

  lemma PlaceOfFile(held: Files, versions: seq<Version>, documents: seq<Document>, u: Version) returns (k: nat)
    requires Lists(held, versions, documents) && u in held
    ensures k < |versions| && versions[k] == u && documents[k] == held[u]
  {
    assert u in versions;
    k :| 0 <= k < |versions| && versions[k] == u;
  }

  lemma OldestAt(held: Files, versions: seq<Version>, documents: seq<Document>, j: nat, u: Version, v: Version)
    requires Lists(held, versions, documents) && OldestCarries(held, u, v)
    requires j < |documents| && v in documents[j].withdraws
    requires forall k | j < k < |documents| :: v !in documents[k].withdraws
    ensures u == versions[j]
  {
    var k := PlaceOfFile(held, versions, documents, u);
    hide Older;
    if k < j {
      OlderOnce(versions[j], u);
    }
  }

  lemma NewestAt(held: Files, versions: seq<Version>, documents: seq<Document>, i: nat, u: Version, id: string)
    requires Lists(held, versions, documents) && NewestTells(held, u, id)
    requires i < |documents| && id in documents[i].requirements
    requires forall k | 0 <= k < i :: id !in documents[k].requirements
    ensures u == versions[i]
  {
    var k := PlaceOfFile(held, versions, documents, u);
    hide Older;
    if i < k {
      OlderOnce(versions[i], u);
    }
  }

  lemma OlderOnce(a: Version, b: Version)
    ensures !(Older(a, b) && Older(b, a)) && !Older(a, a)
  {
  }

  lemma BackAs(held: Files, versions: seq<Version>, documents: seq<Document>, kept: Release)
    requires Lists(held, versions, documents)
    ensures ReleaseAs(held, kept, TakenBack(kept, Withdraws(documents)))
  {
    WithdrawsAt(documents, kept.version);
    ListsAlike(held, versions, documents);
    hide Withdraws, Lists, OldestCarries;
    if kept.version in Withdraws(documents) {
      var j :| 0 <= j < |documents| && kept.version in documents[j].withdraws
               && Withdraws(documents)[kept.version] == documents[j].withdraws[kept.version]
               && forall k | j < k < |documents| :: kept.version !in documents[k].withdraws;
      FileAt(held, versions, documents, j);
      forall u | OldestCarries(held, u, kept.version)
        ensures u == versions[j]
      {
        OldestAt(held, versions, documents, j, u, kept.version);
      }
    } else {
      forall u | u in held
        ensures kept.version !in held[u].withdraws
      {
        var k := PlaceOfFile(held, versions, documents, u);
        FileAt(held, versions, documents, k);
      }
      NoneCarries(held, kept.version);
    }
  }

  lemma NoneCarries(held: Files, v: Version)
    requires forall u | u in held :: v !in held[u].withdraws
    ensures forall u :: !OldestCarries(held, u, v)
  {
  }

  lemma ListsAlike(held: Files, versions: seq<Version>, documents: seq<Document>)
    requires Lists(held, versions, documents)
    ensures |documents| == |versions|
  {
  }

  lemma FileAt(held: Files, versions: seq<Version>, documents: seq<Document>, j: nat)
    requires Lists(held, versions, documents) && j < |versions|
    ensures |versions| == |documents| && versions[j] in held && held[versions[j]] == documents[j]
  {
  }

  lemma AboutMeans(held: Files, versions: seq<Version>, documents: seq<Document>, id: string)
    requires Lists(held, versions, documents)
    requires id in FirstTold(documents)
    ensures AboutAs(held, id, Marked(FirstTold(documents)[id], id in GoneIn(documents)))
  {
    ToldAt(documents, id);
    GoneAt(documents, id);
    hide FirstTold, GoneIn, Lists, NewestTells;
    ListsAlike(held, versions, documents);
    var i :| 0 <= i < |documents| && id in documents[i].requirements
             && FirstTold(documents)[id] == documents[i].requirements[id]
             && forall j | 0 <= j < i :: id !in documents[j].requirements;
    FileAt(held, versions, documents, i);
    forall u | NewestTells(held, u, id)
      ensures u == versions[i]
    {
      NewestAt(held, versions, documents, i, u, id);
    }
    if x :| x in held && id in held[x].withdrawnRequirements {
      var k := PlaceOfFile(held, versions, documents, x);
    }
    if k :| 0 <= k < |documents| && id in documents[k].withdrawnRequirements {
      FileAt(held, versions, documents, k);
    }
  }

  /** The fold, entry by entry. */
  lemma FoldMeans(held: Files) returns (versions: seq<Version>)
    ensures FoldedAs(held, versions, Assembled(held))
  {
    versions := Latest(held.Keys);
    var documents := ReleasesOf(held);
    var record := Assembled(held);
    FoldedAt(documents, Withdraws(documents));
    ReleasesListed(held);
    hide Latest, ReleasesOf, Withdraws, Folded, ReleaseAs, AboutAs, Marked, FirstTold, GoneIn, ShippedIn, Cites;
    hide TakenBack;
    forall i | 0 <= i < |versions|
      ensures versions[i] in versions && ReleaseAs(held, held[versions[i]].release, record.releases[i])
    {
      BackAs(held, versions, documents, held[versions[i]].release);
    }
    forall id
      ensures id in record.requirements <==> exists u :: u in held && id in held[u].requirements
    {
      ToldAt(documents, id);
      if u :| u in held && id in held[u].requirements {
        assert u in versions;
      }
    }
    forall id | id in record.requirements
      ensures AboutAs(held, id, record.requirements[id].about)
      ensures exists places :: ShippedAs(held, versions, id, record.requirements[id].shippedIn, places)
    {
      AboutMeans(held, versions, documents, id);
      var places := ShippedAt(documents, id);
      assert ShippedAs(held, versions, id, record.requirements[id].shippedIn, places);
    }
  }
}
