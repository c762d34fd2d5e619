/** The fold over the immutable files against the record recomputed from scratch. */
module ReleaseFold {
  import opened ReleaseRecord
  import opened ReleaseHistory
  import opened ReleaseAgreement

  // ------------------------------------------------------- what the fold gathers

  lemma {:induction false} FoldedMeans(documents: seq<Document>, withdraws: map<Version, string>)
    ensures |Folded(documents, withdraws)| == |documents|
    ensures forall i | 0 <= i < |documents| ::
              Folded(documents, withdraws)[i] == TakenBack(documents[i].release, withdraws)
  {
    if documents != [] {
      FoldedMeans(documents[..|documents| - 1], withdraws);
    }
  }

  lemma {:induction false} WithdrawsMeans(documents: seq<Document>, v: Version)
    ensures v in Withdraws(documents) <==> exists i :: 0 <= i < |documents| && v in documents[i].withdraws
    ensures v in Withdraws(documents) ==>
              exists i :: 0 <= i < |documents| && v in documents[i].withdraws
                          && documents[i].withdraws[v] == Withdraws(documents)[v]
  {
    if documents != [] {
      var init, last := documents[..|documents| - 1], documents[|documents| - 1];
      WithdrawsMeans(init, v);
      if v in last.withdraws {
        assert documents[|documents| - 1].withdraws[v] == Withdraws(documents)[v];
      } else if v in Withdraws(init) {
        var i :| 0 <= i < |init| && v in init[i].withdraws && init[i].withdraws[v] == Withdraws(init)[v];
        assert documents[i] == init[i];
      }
      if i :| 0 <= i < |documents| && v in documents[i].withdraws {
        assert i < |init| ==> documents[i] == init[i];
      }
    }
  }

  lemma {:induction false} GoneInMeans(documents: seq<Document>, id: string)
    ensures id in GoneIn(documents) <==> exists i :: 0 <= i < |documents| && id in documents[i].withdrawnRequirements
  {
    if documents != [] {
      var init, last := documents[..|documents| - 1], documents[|documents| - 1];
      GoneInMeans(init, id);
      if i :| 0 <= i < |init| && id in init[i].withdrawnRequirements {
        assert documents[i] == init[i];
      }
      if i :| 0 <= i < |documents| && id in documents[i].withdrawnRequirements {
        assert i < |init| ==> documents[i] == init[i];
      }
    }
  }

  /** The fold has each requirement from the first of `documents` that cites it. */
  lemma {:induction false} FirstToldMeans(documents: seq<Document>, id: string)
    ensures id in FirstTold(documents) <==> exists i :: 0 <= i < |documents| && id in documents[i].requirements
    ensures id in FirstTold(documents) ==>
              exists i :: 0 <= i < |documents| && id in documents[i].requirements
                          && documents[i].requirements[id] == FirstTold(documents)[id]
                          && forall j | 0 <= j < i :: id !in documents[j].requirements
  {
    if documents != [] {
      var init, last := documents[..|documents| - 1], documents[|documents| - 1];
      assert forall j | 0 <= j < |init| :: documents[j] == init[j];
      FirstToldMeans(init, id);
      if id in FirstTold(init) {
        var i :| 0 <= i < |init| && id in init[i].requirements
                 && init[i].requirements[id] == FirstTold(init)[id]
                 && forall j | 0 <= j < i :: id !in init[j].requirements;
        assert documents[i].requirements[id] == FirstTold(documents)[id];
      } else if id in last.requirements {
        assert forall j | 0 <= j < |init| :: id !in documents[j].requirements;
        assert documents[|documents| - 1].requirements[id] == FirstTold(documents)[id];
      }
      if i :| 0 <= i < |documents| && id in documents[i].requirements {
        assert i < |init| ==> documents[i] == init[i];
      }
    }
  }

  /** The kept files, each once, as the versions they are read in. */
  lemma ReadAll(held: Files, v: Version)
    ensures v in held
            <==> exists i :: 0 <= i < |ReleasesOf(held)| && Latest(held.Keys)[i] == v && ReleasesOf(held)[i] == held[v]
  {
    hide Latest, ReleasesOf;
    if v in held {
      assert v in Latest(held.Keys);
    }
  }

  lemma FoldWithdraws(held: Files, v: Version)
    ensures v in Withdraws(ReleasesOf(held)) <==> ListedBack(held, v)
    ensures v in Withdraws(ReleasesOf(held)) ==>
              exists u :: u in held && v in held[u].withdraws && held[u].withdraws[v] == Withdraws(ReleasesOf(held))[v]
  {
    hide Latest, ReleasesOf, Withdraws;
    var documents := ReleasesOf(held);
    WithdrawsMeans(documents, v);
    if ListedBack(held, v) {
      var u :| u in held && v in held[u].withdraws;
      ReadAll(held, u);
    }
    assert forall i | 0 <= i < |documents| :: Latest(held.Keys)[i] in held;
  }

  lemma FoldGone(held: Files, id: string)
    ensures id in GoneIn(ReleasesOf(held)) <==> ListedGone(held, id)
  {
    hide Latest, ReleasesOf, GoneIn;
    var documents := ReleasesOf(held);
    GoneInMeans(documents, id);
    if ListedGone(held, id) {
      var u :| u in held && id in held[u].withdrawnRequirements;
      ReadAll(held, u);
    }
    assert forall i | 0 <= i < |documents| :: Latest(held.Keys)[i] in held;
  }

  /** The fold has a requirement exactly where a file tells one, from the newest that does. */
  lemma FoldTold(held: Files, id: string)
    ensures id in FirstTold(ReleasesOf(held)) <==> ToldGone(held, id) || ToldLive(held, id)
    ensures id in FirstTold(ReleasesOf(held)) ==>
              exists v :: v in held && id in held[v].requirements
                          && held[v].requirements[id] == FirstTold(ReleasesOf(held))[id]
                          && forall u | u in held && Newer(u, v) :: id !in held[u].requirements
  {
    hide Latest, ReleasesOf, FirstTold, Older;
    var documents, versions := ReleasesOf(held), Latest(held.Keys);
    FirstToldMeans(documents, id);
    if v :| v in held && id in held[v].requirements {
      assert held[v].requirements[id].Gone? || held[v].requirements[id].Live?;
      ReadAll(held, v);
    }
    if id in FirstTold(documents) {
      var i :| 0 <= i < |documents| && id in documents[i].requirements
               && documents[i].requirements[id] == FirstTold(documents)[id]
               && forall j | 0 <= j < i :: id !in documents[j].requirements;
      var v := versions[i];
      forall u | u in held && Newer(u, v)
        ensures id !in held[u].requirements
      {
        ReadAll(held, u);
        var j :| 0 <= j < |documents| && versions[j] == u && documents[j] == held[u];
        if i <= j {
          NoneNewerAfter(versions, i, j);
        }
      }
      assert held[v].requirements[id].Gone? || held[v].requirements[id].Live?;
    }
  }

  lemma NoneNewerAfter(versions: seq<Version>, i: nat, j: nat)
    requires forall a, b | 0 <= a < b < |versions| :: Newer(versions[a], versions[b])
    requires i <= j < |versions|
    ensures !Newer(versions[j], versions[i])
  {
    if i < j {
      assert Newer(versions[i], versions[j]);
    }
  }

  // ------------------------------------------------------------- the marks

  /** Whether `folded` holds the releases of `record`, and the requirements its own releases cite,
      and marks each of them withdrawn exactly when `record` does. */
  ghost predicate MarksAs(folded: Record, record: Record) {
    var was, now := ByVersion(record.releases), ByVersion(folded.releases);
    && Distinct(folded.releases)
    && now.Keys == was.Keys
    && (forall v | v in now :: Given(now[v].withdrawn) <==> Given(was[v].withdrawn))
    && (forall id :: id in folded.requirements <==> CitedByRecord(folded, id))
    && (forall id | id in folded.requirements ::
          && id in record.requirements
          && (folded.requirements[id].about.Gone? <==> record.requirements[id].about.Gone?))
  }

  ghost predicate CitedByRecord(record: Record, id: string) {
    var releases := ByVersion(record.releases);
    exists v :: v in releases && id in CitedIn(releases[v])
  }

  lemma FoldedDistinct(held: Files, settled: Record)
    requires Covers(held, settled)
    ensures Distinct(Assembled(held).releases)
  {
    hide Latest, ReleasesOf, Withdraws, GoneIn, FirstTold, Folded, Requirements, ByVersion, CitedIn;
    var documents, versions := ReleasesOf(held), Latest(held.Keys);
    FoldedMeans(documents, Withdraws(documents));
    var releases := Assembled(held).releases;
    assert forall i | 0 <= i < |documents| :: releases[i].version == versions[i];
  }

  lemma FoldedRelease(held: Files, settled: Record, v: Version)
    requires Covers(held, settled)
    requires v in held
    ensures v in ByVersion(Assembled(held).releases)
    ensures ByVersion(Assembled(held).releases)[v] == TakenBack(held[v].release, Withdraws(ReleasesOf(held)))
  {
    hide Latest, ReleasesOf, Withdraws, GoneIn, FirstTold, Folded, Requirements, ByVersion, CitedIn, TakenBack;
    var documents := ReleasesOf(held);
    FoldedMeans(documents, Withdraws(documents));
    FoldedDistinct(held, settled);
    ByVersionMeans(Assembled(held).releases);
    ReadAll(held, v);
    var i :| 0 <= i < |documents| && documents[i] == held[v];
    assert Assembled(held).releases[i] == TakenBack(held[v].release, Withdraws(documents));
    TakenBackVersion(held[v].release, Withdraws(documents));
  }

  lemma TakenBackVersion(release: Release, withdraws: map<Version, string>)
    ensures TakenBack(release, withdraws).version == release.version
  {
  }

  lemma FoldedVersions(held: Files, settled: Record)
    requires Covers(held, settled)
    ensures ByVersion(Assembled(held).releases).Keys == held.Keys
  {
    hide Latest, ReleasesOf, Withdraws, GoneIn, FirstTold, Folded, Requirements, ByVersion, CitedIn, TakenBack;
    var documents, versions := ReleasesOf(held), Latest(held.Keys);
    FoldedMeans(documents, Withdraws(documents));
    FoldedDistinct(held, settled);
    var releases := Assembled(held).releases;
    ByVersionMeans(releases);
    forall v | v in ByVersion(releases)
      ensures v in held
    {
      var i :| 0 <= i < |releases| && releases[i] == ByVersion(releases)[v];
      TakenBackVersion(documents[i].release, Withdraws(documents));
      assert versions[i] in held;
    }
    forall v | v in held
      ensures v in ByVersion(releases)
    {
      FoldedRelease(held, settled, v);
    }
  }

  lemma FoldedMark(held: Files, settled: Record, v: Version)
    requires Agrees(held, settled)
    requires v in held
    ensures v in ByVersion(Assembled(held).releases)
    ensures Given(ByVersion(Assembled(held).releases)[v].withdrawn) <==> Given(ByVersion(settled.releases)[v].withdrawn)
  {
    hide Latest, ReleasesOf, Withdraws, GoneIn, FirstTold, Folded, Requirements, ByVersion, CitedIn;
    hide RequirementsAgree, ListedBack, Assembled, ListsOnce;
    FoldedRelease(held, settled, v);
    FoldWithdraws(held, v);
  }

  lemma FoldedRequirement(held: Files, settled: Record, id: string)
    requires Agrees(held, settled)
    ensures id in Assembled(held).requirements <==> CitedByFiles(held, id)
    ensures id in Assembled(held).requirements ==>
              && id in settled.requirements
              && (Assembled(held).requirements[id].about.Gone? <==> settled.requirements[id].about.Gone?)
  {
    FoldTold(held, id);
    FoldGone(held, id);
    CitedTell(held, settled, id);
    if CitedByFiles(held, id) {
      CitedKnown(held, settled, id);
    }
    hide Latest, ReleasesOf, Withdraws, GoneIn, FirstTold, Folded, ByVersion, CitedIn, CitedByFiles;
    hide ReleasesAgree, ListedGone, SaidOnce, Covers;
  }

  /** What the files cite is what the releases folded out of them do. */
  lemma CitedByFolded(held: Files, settled: Record, id: string)
    requires Covers(held, settled)
    ensures CitedByFiles(held, id) <==> CitedByRecord(Assembled(held), id)
  {
    hide Assembled, ByVersion, CitedIn, Withdraws, ReleasesOf, Covers;
    var folded := ByVersion(Assembled(held).releases);
    FoldedVersions(held, settled);
    forall v | v in held
      ensures CitedIn(folded[v]) == CitedIn(held[v].release)
    {
      FoldedRelease(held, settled, v);
      TakenBackCites(held[v].release, Withdraws(ReleasesOf(held)));
    }
  }

  lemma TakenBackCites(release: Release, withdraws: map<Version, string>)
    ensures CitedIn(TakenBack(release, withdraws)) == CitedIn(release)
  {
  }

  /** Each file's release cites what the settled record says it does. */
  ghost predicate CitesAs(held: Files, settled: Record) {
    var now := ByVersion(settled.releases);
    forall v | v in held && v in now :: CitedIn(held[v].release) == CitedIn(now[v])
  }

  lemma CitedBySettled(held: Files, settled: Record, id: string)
    requires Covers(held, settled)
    requires CitesAs(held, settled)
    ensures CitedByFiles(held, id) <==> CitedByRecord(settled, id)
  {
    hide CitedIn, ByVersion;
  }

  lemma AgreementMarks(held: Files, settled: Record)
    requires Agrees(held, settled)
    ensures MarksAs(Assembled(held), settled)
  {
    hide Assembled, ByVersion, Distinct, Given, CitedByFiles, CitedByRecord;
    hide ReleasesAgree, RequirementsAgree, SaidOnce, CitedIn, Ids;
    FoldedDistinct(held, settled);
    FoldedVersions(held, settled);
    forall v | v in held
      ensures Given(ByVersion(Assembled(held).releases)[v].withdrawn)
              <==> Given(ByVersion(settled.releases)[v].withdrawn)
    {
      FoldedMark(held, settled, v);
    }
    forall id
      ensures id in Assembled(held).requirements <==> CitedByRecord(Assembled(held), id)
      ensures id in Assembled(held).requirements ==>
                && id in settled.requirements
                && (Assembled(held).requirements[id].about.Gone? <==> settled.requirements[id].about.Gone?)
    {
      FoldedRequirement(held, settled, id);
      CitedByFolded(held, settled, id);
    }
  }

  /** The whole history: whatever was written when, and however a release was later put, what the
      files fold back to marks every release, and every requirement those releases cite, as the last
      record whose write added a file does. */
  lemma FoldMarksAsSettled(history: seq<Record>)
    requires Growing(history)
    ensures MarksAs(Assembled(After(history)), Settled(history))
  {
    HistoryAgrees(history);
    AgreementMarks(After(history), Settled(history));
  }

  /** Right after a write that adds a file, that record is the one just written. */
  lemma FoldMarksAsRecord(history: seq<Record>)
    requires Growing(history)
    requires Adding(history)
    ensures MarksAs(Assembled(After(history)), history[|history| - 1])
  {
    FoldMarksAsSettled(history);
  }

  /** Whether a release cites in the later record what it cited in the earlier. */
  ghost predicate CitesAlike(earlier: Record, later: Record) {
    var was, now := ByVersion(earlier.releases), ByVersion(later.releases);
    forall v | v in was && v in now :: CitedIn(was[v]) == CitedIn(now[v])
  }

  ghost predicate CitationsKept(history: seq<Record>) {
    forall i, j | 0 <= i < j < |history| && j == i + 1 :: CitesAlike(history[i], history[j])
  }

  lemma CitesOnward(held: Files, was: Record, record: Record)
    requires Covers(held, was)
    requires CitesAs(held, was)
    requires Grows(was, record) && CitesAlike(was, record)
    requires Sound(record)
    ensures CitesAs(Put(held, record), record)
  {
    hide CitedIn, ByVersion, Tells, CarriesLate, CarriesNone, Unwritten;
    if Missing(record.releases, held) != [] {
      var newest := UnwrittenMeans(record, held);
    } else {
      NoneAdded(held, record);
    }
  }

  lemma {:induction false} SettledCites(history: seq<Record>)
    requires Growing(history) && CitationsKept(history)
    ensures history != [] ==> CitesAlike(Settled(history), history[|history| - 1])
  {
    hide CitesAlike, Grows, Sound;
    if history != [] {
      var init, last := history[..|history| - 1], history[|history| - 1];
      SettledCites(init);
      CitesSelf(last);
      if init == [] {
        CitesNothing(last);
      } else {
        SettledGrows(init);
        assert CitesAlike(history[|init| - 1], history[|init|]);
        assert Grows(history[|init| - 1], history[|init|]);
        CitesThrough(Settled(init), init[|init| - 1], last);
      }
    }
  }

  lemma CitesSelf(record: Record)
    ensures CitesAlike(record, record)
  {
  }

  lemma CitesNothing(record: Record)
    ensures CitesAlike(NOTHING, record)
  {
  }

  lemma CitesThrough(a: Record, b: Record, c: Record)
    requires Grows(a, b) && CitesAlike(a, b) && CitesAlike(b, c)
    ensures CitesAlike(a, c)
  {
    hide CitedIn, ByVersion;
  }

  lemma {:induction false} HistoryCites(history: seq<Record>)
    requires Growing(history) && CitationsKept(history)
    ensures CitesAs(After(history), Settled(history))
  {
    hide CitesAlike, CitesAs, Grows, Sound, Put, Missing;
    if history == [] {
      assert CitesAs(map[], NOTHING) by {
        NothingCites();
      }
    } else {
      var init, last := history[..|history| - 1], history[|history| - 1];
      HistoryCites(init);
      if Adding(history) {
        HistoryAgrees(init);
        SettledBefore(history);
        SettledCitesBefore(history);
        AgreesMeansCovers(After(init), Settled(init));
        CitesOnward(After(init), Settled(init), last);
      } else {
        NoneAdded(After(init), last);
      }
    }
  }

  lemma NothingCites()
    ensures CitesAs(map[], NOTHING)
  {
  }

  lemma AgreesMeansCovers(held: Files, settled: Record)
    requires Agrees(held, settled)
    ensures Covers(held, settled)
  {
  }

  lemma SettledCitesBefore(history: seq<Record>)
    requires Growing(history) && CitationsKept(history)
    requires history != []
    ensures CitesAlike(Settled(history[..|history| - 1]), history[|history| - 1])
  {
    hide CitesAlike, Grows, Sound;
    var init, last := history[..|history| - 1], history[|history| - 1];
    SettledCites(init);
    SettledGrows(init);
    if init == [] {
      CitesNothing(last);
    } else {
      assert CitesAlike(history[|init| - 1], history[|init|]);
      CitesThrough(Settled(init), init[|init| - 1], last);
    }
  }

  /** Where releases go on citing what they cited, the fold holds exactly the requirements the last
      record whose write added a file cites. */
  lemma FoldHoldsTheCited(history: seq<Record>, id: string)
    requires Growing(history) && CitationsKept(history)
    ensures id in Assembled(After(history)).requirements <==> CitedByRecord(Settled(history), id)
  {
    hide Agrees, CitesAs, Assembled, CitationsKept, Grows, Sound;
    HistoryAgrees(history);
    HistoryCites(history);
    AgreesMeansCovers(After(history), Settled(history));
    FoldedRequirement(After(history), Settled(history), id);
    CitedBySettled(After(history), Settled(history), id);
  }

  /** Every file is written once: no later write changes one already there. */
  lemma {:induction false} FilesNeverChange(history: seq<Record>, more: seq<Record>)
    requires AllSound(history + more)
    ensures AllSound(history)
    ensures forall v | v in After(history) ::
              v in After(history + more) && After(history + more)[v] == After(history)[v]
  {
    if more == [] {
      assert history + more == history;
    } else {
      var init := more[..|more| - 1];
      assert (history + more)[..|history + more| - 1] == history + init;
      FilesNeverChange(history, init);
      UnwrittenApart((history + more)[|history + more| - 1], After(history + init));
    }
  }

  lemma UnwrittenApart(record: Record, held: Files)
    requires Sound(record)
    ensures forall v | v in Unwritten(record, held) :: v !in held
  {
    if Missing(record.releases, held) != [] {
      var newest := UnwrittenMeans(record, held);
      hide Unwritten;
    }
  }

  /** No file repeats a withdrawal another carries, or one a release's own file already shows. */
  lemma WithdrawalsSaidOnce(history: seq<Record>)
    requires Growing(history)
    ensures SaidOnce(After(history))
  {
    HistoryAgrees(history);
  }
}
