/** Where nothing said of a release or a requirement is reworded later, the files fold back to the
    very record last written. */
module ReleaseWhole {
  import opened Outcomes
  import opened Sorting
  import opened ReleaseRecord
  import opened ReleaseHistory
  import opened ReleaseAgreement
  import opened ReleaseFold

  // ------------------------------------------------------------- records

  ghost predicate SameFacts(was: Release, now: Release) {
    && was.(withdrawn := None) == now.(withdrawn := None)
    && (Given(was.withdrawn) ==> now.withdrawn == was.withdrawn)
  }

  /** A requirement keeps its feature, and its page while it has one. */
  ghost predicate SameAbout(was: About, now: About) {
    was.feature == now.feature && (was.Live? && now.Live? ==> was == now)
  }

  /** Between two records nothing already said is reworded; only withdrawals are added. */
  ghost predicate Steady(earlier: Record, later: Record) {
    var was, now := ByVersion(earlier.releases), ByVersion(later.releases);
    && Grows(earlier, later)
    && (forall v | v in was && v in now :: SameFacts(was[v], now[v]))
    && (forall id | id in earlier.requirements && id in later.requirements ::
          SameAbout(earlier.requirements[id].about, later.requirements[id].about))
  }

  lemma SteadyOnward(a: Record, b: Record, c: Record)
    requires Steady(a, b)
    requires Steady(b, c)
    ensures Steady(a, c)
  {
    GrowsOnward(a, b, c);
  }

  ghost predicate SteadyHistory(history: seq<Record>) {
    && AllSound(history)
    && forall i, j | 0 <= i < j < |history| && j == i + 1 :: Steady(history[i], history[j])
  }

  lemma SteadyGrowing(history: seq<Record>)
    requires SteadyHistory(history)
    ensures Growing(history)
  {
    hide Grows;
    forall i, j | 0 <= i < j < |history| && j == i + 1
      ensures Grows(history[i], history[j])
    {
      assert Steady(history[i], history[j]);
    }
  }

  function Citing(releases: seq<Release>, id: string): seq<Version> {
    if releases == [] then []
    else
      var rest, last := Citing(releases[..|releases| - 1], id), releases[|releases| - 1];
      if id in CitedIn(last) then rest + [last.version] else rest
  }

  /** A record as it is built from the history: newest release first, an empty reason never
      given, and for each cited requirement, and no other, the releases citing it. */
  ghost predicate Whole(record: Record) {
    && Sound(record)
    && (forall i, j | 0 <= i < j < |record.releases| :: Newer(record.releases[i].version, record.releases[j].version))
    && (forall one | one in record.releases :: one.withdrawn != Some(""))
    && (forall id | id in record.requirements ::
          && CitedByRecord(record, id)
          && record.requirements[id].shippedIn == Citing(record.releases, id))
  }

  // ---------------------------------------------------------- faithfulness

  /** The files say what `settled` says, in its words. */
  ghost predicate Faithful(held: Files, settled: Record) {
    var now := ByVersion(settled.releases);
    && (forall v | v in held && v in now :: SameFacts(held[v].release, now[v]))
    && (forall u, v | u in held && v in held[u].withdraws ::
          v in now && now[v].withdrawn == Some(held[u].withdraws[v]))
    && (forall v, id | v in held && id in held[v].requirements && id in settled.requirements ::
          SameAbout(held[v].requirements[id], settled.requirements[id].about))
  }

  lemma FaithfulReleases(held: Files, was: Record, record: Record, added: Files, newest: Version, v: Version)
    requires Covers(held, was)
    requires Faithful(held, was)
    requires Steady(was, record)
    requires Adds(held, record, added, newest)
    requires v in held + added
    ensures v in ByVersion(record.releases)
    ensures SameFacts((held + added)[v].release, ByVersion(record.releases)[v])
  {
    hide CitedIn, ByVersion, CarriesLate, CarriesNone, Tells, SameAbout, Ids;
    if v in held {
      assert v in ByVersion(was.releases);
      assert SameFacts(held[v].release, ByVersion(was.releases)[v]);
      assert SameFacts(ByVersion(was.releases)[v], ByVersion(record.releases)[v]);
    }
  }

  lemma FaithfulWithdraws(held: Files, was: Record, record: Record, added: Files, newest: Version,
                          u: Version, v: Version)
    requires Covers(held, was)
    requires SaidOnce(held)
    requires Faithful(held, was)
    requires Steady(was, record)
    requires Adds(held, record, added, newest)
    requires u in held + added
    requires v in (held + added)[u].withdraws
    ensures v in ByVersion(record.releases)
    ensures ByVersion(record.releases)[v].withdrawn == Some((held + added)[u].withdraws[v])
  {
    hide CitedIn, ByVersion, Tells, SameAbout, Ids, WithdrawnReleases, WithdrawnIds, LateRequirements;
    OnlyNewest(held, record, added, newest, u);
    if u in held {
      assert TakesBackOnce(held, u, v);
      assert v in ByVersion(was.releases);
      assert SameFacts(ByVersion(was.releases)[v], ByVersion(record.releases)[v]);
    }
  }

  lemma FaithfulRequirements(held: Files, was: Record, record: Record, added: Files, newest: Version,
                             v: Version, id: string)
    requires Covers(held, was)
    requires Faithful(held, was)
    requires Steady(was, record)
    requires Adds(held, record, added, newest)
    requires v in held + added
    requires id in (held + added)[v].requirements
    ensures id in record.requirements
    ensures SameAbout((held + added)[v].requirements[id], record.requirements[id].about)
  {
    hide CitedIn, ByVersion, CarriesLate, CarriesNone, Ids;
    if v in added {
      assert Tells(record, added[v]);
    } else {
      assert id in was.requirements;
      assert SameAbout(held[v].requirements[id], was.requirements[id].about);
    }
  }

  lemma FaithfulOnward(held: Files, was: Record, record: Record)
    requires Agrees(held, was)
    requires Faithful(held, was)
    requires Steady(was, record)
    requires Sound(record)
    requires Missing(record.releases, held) != []
    ensures Faithful(Put(held, record), record)
  {
    hide Missing, Unwritten, Adds, Covers, ReleasesAgree, RequirementsAgree, SaidOnce, Steady, Distinct;
    hide SameFacts, SameAbout, ByVersion;
    var newest := UnwrittenMeans(record, held);
    var added := Unwritten(record, held);
    var grown := held + added;
    forall v | v in grown
      ensures v in ByVersion(record.releases) && SameFacts(grown[v].release, ByVersion(record.releases)[v])
    {
      FaithfulReleases(held, was, record, added, newest, v);
    }
    forall u, v | u in grown && v in grown[u].withdraws
      ensures v in ByVersion(record.releases) && ByVersion(record.releases)[v].withdrawn == Some(grown[u].withdraws[v])
    {
      FaithfulWithdraws(held, was, record, added, newest, u, v);
    }
    forall v, id | v in grown && id in grown[v].requirements
      ensures id in record.requirements && SameAbout(grown[v].requirements[id], record.requirements[id].about)
    {
      FaithfulRequirements(held, was, record, added, newest, v, id);
    }
  }

  lemma {:induction false} SettledSteady(history: seq<Record>)
    requires SteadyHistory(history)
    ensures history != [] ==> Steady(Settled(history), history[|history| - 1])
  {
    hide Steady, Sound;
    if history != [] {
      var init, last := history[..|history| - 1], history[|history| - 1];
      SettledSteady(init);
      if init != [] {
        assert Steady(history[|init| - 1], history[|init|]);
        SettledLast(history);
        if !Adding(history) {
          SteadyOnward(Settled(init), init[|init| - 1], last);
        } else {
          SteadySelf(last);
        }
      } else {
        SteadySelf(last);
        SteadyNothing(last);
      }
    }
  }

  lemma SettledLast(history: seq<Record>)
    requires AllSound(history)
    requires history != []
    ensures Settled(history) == if Adding(history) then history[|history| - 1] else Settled(history[..|history| - 1])
  {
  }

  lemma SteadySelf(record: Record)
    ensures Steady(record, record)
  {
  }

  lemma SteadyNothing(record: Record)
    ensures Steady(NOTHING, record)
  {
  }

  lemma {:induction false} HistoryFaithful(history: seq<Record>)
    requires SteadyHistory(history)
    ensures Faithful(After(history), Settled(history))
  {
    hide Steady, Faithful, Sound, Put, Missing;
    if history == [] {
      NothingFaithful();
    } else {
      var init, last := history[..|history| - 1], history[|history| - 1];
      HistoryFaithful(init);
      if Adding(history) {
        SteadyGrowing(init);
        HistoryAgrees(init);
        SettledSteady(init);
        if init != [] {
          assert Steady(history[|init| - 1], history[|init|]);
          SteadyOnward(Settled(init), init[|init| - 1], last);
        } else {
          SteadyNothing(last);
        }
        FaithfulOnward(After(init), Settled(init), last);
      } else {
        NoneAdded(After(init), last);
      }
    }
  }

  lemma NothingFaithful()
    ensures Faithful(map[], NOTHING)
  {
  }

  // -------------------------------------------------------------- equality

  lemma WholeVersions(held: Files, record: Record)
    requires Covers(held, record)
    requires Whole(record)
    ensures |Latest(held.Keys)| == |record.releases|
    ensures forall i | 0 <= i < |record.releases| :: Latest(held.Keys)[i] == record.releases[i].version
  {
    hide Latest, ByVersion, CitedIn, Citing, CitedByRecord, Distinct, Quotes, Covers, Ids, Older;
    var releases := record.releases;
    var versions := seq(|releases|, i requires 0 <= i < |releases| => releases[i].version);
    SameVersions(held, record, versions);
    VersionsOrder(held.Keys);
    SortedOnce(Newer, held.Keys, Latest(held.Keys), versions);
  }

  lemma SameVersions(held: Files, record: Record, versions: seq<Version>)
    requires Covers(held, record)
    requires Sound(record)
    requires |versions| == |record.releases|
    requires forall i | 0 <= i < |versions| :: versions[i] == record.releases[i].version
    ensures forall v :: v in versions <==> v in held
  {
    hide ByVersion, CitedIn, Quotes, Ids;
    ByVersionMeans(record.releases);
    forall v
      ensures v in versions <==> v in held
    {
      if v in held {
        var one := ByVersion(record.releases)[v];
        var i :| 0 <= i < |versions| && record.releases[i] == one;
        assert versions[i] == v;
      }
    }
  }

  lemma WholeRelease(held: Files, record: Record, v: Version)
    requires Agrees(held, record)
    requires Faithful(held, record)
    requires Whole(record)
    requires v in held
    ensures TakenBack(held[v].release, Withdraws(ReleasesOf(held))) == ByVersion(record.releases)[v]
  {
    var now := ByVersion(record.releases);
    assert v in now;
    FoldWithdraws(held, v);
    ByVersionMeans(record.releases);
    hide ReleasesOf, Withdraws, ByVersion, CitedIn, Citing, CitedByRecord, Latest, RequirementsAgree, Quotes;
    hide Distinct, SameAbout, Ids;
    assert now[v] in record.releases;
    assert SameFacts(held[v].release, now[v]);
    assert (Given(held[v].release.withdrawn) || ListedBack(held, v)) <==> Given(now[v].withdrawn);
  }

  lemma WholeReleases(held: Files, record: Record)
    requires Agrees(held, record)
    requires Faithful(held, record)
    requires Whole(record)
    ensures Assembled(held).releases == record.releases
  {
    hide ReleasesOf, Withdraws, ByVersion, CitedIn, Citing, CitedByRecord, Latest, Folded, Requirements;
    hide TakenBack, Faithful;
    hide ReleasesAgree, RequirementsAgree, SaidOnce, Quotes, Distinct, Newer, Ids;
    var documents, releases := ReleasesOf(held), record.releases;
    FoldedMeans(documents, Withdraws(documents));
    WholeVersions(held, record);
    ByVersionMeans(releases);
    forall i | 0 <= i < |releases|
      ensures Assembled(held).releases[i] == releases[i]
    {
      var v := releases[i].version;
      assert v in ByVersion(releases) && documents[i] == held[v];
      WholeRelease(held, record, v);
    }
  }

  lemma {:induction false} CitingAlike(documents: seq<Document>, releases: seq<Release>, id: string)
    requires |documents| == |releases|
    requires forall i | 0 <= i < |releases| :: documents[i].release.version == releases[i].version
    requires forall i | 0 <= i < |releases| :: CitedIn(documents[i].release) == CitedIn(releases[i])
    ensures ShippedIn(documents, id) == Citing(releases, id)
  {
    hide CitedIn;
    if documents != [] {
      CitingAlike(documents[..|documents| - 1], releases[..|releases| - 1], id);
    }
  }

  /** Files in the record's words cite what it does. */
  lemma FaithfulCites(held: Files, record: Record)
    requires Faithful(held, record)
    ensures CitesAs(held, record)
  {
    hide ByVersion, SameAbout, Once, Mentioned;
  }

  lemma WholeShipped(held: Files, record: Record, id: string)
    requires Covers(held, record)
    requires CitesAs(held, record)
    requires Whole(record)
    ensures ShippedIn(ReleasesOf(held), id) == Citing(record.releases, id)
  {
    hide ReleasesOf, ByVersion, CitedIn, Citing, CitedByRecord, Latest, Quotes, Distinct, Newer, ShippedIn, Ids;
    WholeVersions(held, record);
    ByVersionMeans(record.releases);
    var documents, releases := ReleasesOf(held), record.releases;
    forall i | 0 <= i < |releases|
      ensures documents[i].release.version == releases[i].version
      ensures CitedIn(documents[i].release) == CitedIn(releases[i])
    {
      assert ByVersion(releases)[releases[i].version] == releases[i];
    }
    CitingAlike(documents, releases, id);
  }

  lemma WholeAbout(held: Files, record: Record, id: string)
    requires Agrees(held, record)
    requires Faithful(held, record)
    requires id in Assembled(held).requirements
    ensures id in record.requirements
    ensures Assembled(held).requirements[id].about == record.requirements[id].about
  {
    FoldedRequirement(held, record, id);
    FoldTold(held, id);
    hide ReleasesOf, ByVersion, CitedIn, Latest, Withdraws, Folded, FirstTold, GoneIn, ShippedIn, SameFacts;
    hide Agrees, ToldGone, ToldLive, Older;
    var documents := ReleasesOf(held);
    var v :| v in held && id in held[v].requirements && held[v].requirements[id] == FirstTold(documents)[id];
    assert SameAbout(held[v].requirements[id], record.requirements[id].about);
  }

  lemma WholeKeys(held: Files, record: Record, id: string)
    requires Agrees(held, record)
    requires CitesAs(held, record)
    requires Whole(record)
    ensures id in Assembled(held).requirements <==> id in record.requirements
  {
    FoldedRequirement(held, record, id);
    CitedBySettled(held, record, id);
    hide Assembled, ByVersion, CitedIn, Citing, CitedByFiles, CitedByRecord, Sound, Covers, Newer;
    hide RequirementsAgree, ReleasesAgree, SaidOnce;
  }

  lemma WholeRequirement(held: Files, record: Record, id: string)
    requires Agrees(held, record)
    requires Faithful(held, record)
    requires Whole(record)
    requires id in Assembled(held).requirements
    ensures id in record.requirements
    ensures Assembled(held).requirements[id] == record.requirements[id]
  {
    hide ReleasesOf, ByVersion, CitedIn, Citing, CitedByRecord, Withdraws, Folded, FirstTold, GoneIn, ShippedIn, Marked;
    hide Agrees, Faithful, Sound, Newer;
    WholeAbout(held, record, id);
    assert Covers(held, record) by {
      AgreesMeansCovers(held, record);
    }
    FaithfulCites(held, record);
    WholeShipped(held, record, id);
  }

  /** Files that agree with a whole record, in its words, fold back to it. */
  lemma AgreementIsEquality(held: Files, record: Record)
    requires Agrees(held, record)
    requires Faithful(held, record)
    requires Whole(record)
    ensures Assembled(held) == record
  {
    hide *;
    WholeReleases(held, record);
    FaithfulCites(held, record);
    forall id
      ensures id in Assembled(held).requirements <==> id in record.requirements
      ensures id in Assembled(held).requirements ==> Assembled(held).requirements[id] == record.requirements[id]
    {
      WholeKeys(held, record, id);
      if id in Assembled(held).requirements {
        WholeRequirement(held, record, id);
      }
    }
    assert Assembled(held).requirements == record.requirements;
  }

  /** The files of a steady history, right after a write that adds one, fold back to the record
      recomputed from scratch: every release, every requirement, every word. */
  lemma FoldIsTheRecord(history: seq<Record>)
    requires SteadyHistory(history)
    requires Adding(history)
    requires Whole(history[|history| - 1])
    ensures Assembled(After(history)) == history[|history| - 1]
  {
    SteadyGrowing(history);
    HistoryAgrees(history);
    HistoryFaithful(history);
    AgreementIsEquality(After(history), history[|history| - 1]);
  }
}
