/** What the files of a growing history agree on with the last record that added one. */
module ReleaseAgreement {
  import opened ReleaseRecord
  import opened ReleaseHistory

  // ----------------------------------------------------------- agreement

  /** Some file's late list names `id`. */
  predicate ListedGone(held: Files, id: string) {
    exists v :: v in held && id in held[v].withdrawnRequirements
  }

  /** Some file citing `id` has it as withdrawn. */
  predicate ToldGone(held: Files, id: string) {
    exists v :: v in held && id in held[v].requirements && held[v].requirements[id].Gone?
  }

  /** Some file citing `id` has it as live. */
  predicate ToldLive(held: Files, id: string) {
    exists v :: v in held && id in held[v].requirements && held[v].requirements[id].Live?
  }

  /** Some file takes the release `v` back. */
  predicate ListedBack(held: Files, v: Version) {
    exists u :: u in held && v in held[u].withdraws
  }

  /** There is one file for each release of `settled`, telling what the release then cited. */
  ghost predicate Covers(held: Files, settled: Record) {
    var now := ByVersion(settled.releases);
    && held.Keys == now.Keys
    && (forall v | v in held ::
          && held[v].release.version == v
          && held[v].requirements.Keys == Ids(CitedIn(held[v].release)))
    && (forall v, id | v in held && id in held[v].requirements :: id in settled.requirements)
  }

  /** The files say a release was taken back exactly when `settled` does. */
  ghost predicate ReleasesAgree(held: Files, settled: Record) {
    var now := ByVersion(settled.releases);
    forall v | v in held && v in now ::
      (Given(held[v].release.withdrawn) || ListedBack(held, v)) <==> Given(now[v].withdrawn)
  }

  /** The files say a requirement is withdrawn exactly when `settled` does; and where none lists
      it late, every file citing it says so itself. */
  ghost predicate RequirementsAgree(held: Files, settled: Record) {
    forall id | id in settled.requirements && CitedByFiles(held, id) ::
      && ((ListedGone(held, id) || ToldGone(held, id)) <==> settled.requirements[id].about.Gone?)
      && (ToldGone(held, id) && ToldLive(held, id) ==> ListedGone(held, id))
  }

  /** The file `u` takes back `v`, a release kept when it was written, and no other file does. */
  ghost predicate TakesBackOnce(held: Files, u: Version, v: Version)
    requires u in held && v in held[u].withdraws
  {
    && v in held && !Given(held[v].release.withdrawn) && held[u].withdraws[v] != ""
    && forall t | t in held && v in held[t].withdraws :: t == u
  }

  /** The file `u` lists `id`, which a kept release cites, and no other file does. */
  ghost predicate ListsOnce(held: Files, u: Version, id: string) {
    && CitedByFiles(held, id)
    && forall t | t in held && id in held[t].withdrawnRequirements :: t == u
  }

  ghost predicate SaidOnce(held: Files) {
    && (forall u, v | u in held && v in held[u].withdraws :: TakesBackOnce(held, u, v))
    && (forall u, id | u in held && id in held[u].withdrawnRequirements :: ListsOnce(held, u, id))
  }

  ghost predicate Agrees(held: Files, settled: Record) {
    && Covers(held, settled)
    && ReleasesAgree(held, settled)
    && RequirementsAgree(held, settled)
    && SaidOnce(held)
  }

  // ----------------------------------------------- each part, one write on

  lemma WithdrawnReleasesMeans(held: Files, v: Version)
    requires forall u | u in held :: held[u].release.version == u
    ensures v in WithdrawnReleases(held)
            <==> (v in held && Given(held[v].release.withdrawn)) || ListedBack(held, v)
  {
  }

  lemma WithdrawnIdsMeans(held: Files, id: string)
    ensures id in WithdrawnIds(held) <==> ListedGone(held, id) || ToldGone(held, id)
  {
  }

  lemma CoversOnward(held: Files, was: Record, record: Record, added: Files, newest: Version)
    requires Covers(held, was)
    requires Grows(was, record)
    requires Adds(held, record, added, newest)
    ensures Covers(held + added, record)
  {
    hide CitedIn, ByVersion, CarriesLate, CarriesNone, WithdrawnReleases, WithdrawnIds;
  }

  lemma ListedBackOnward(held: Files, record: Record, added: Files, newest: Version, v: Version)
    requires Adds(held, record, added, newest)
    ensures ListedBack(held + added, v) <==> ListedBack(held, v) || v in added[newest].withdraws
  {
    hide CitedIn, ByVersion, CarriesLate, Tells;
    var grown := held + added;
    if ListedBack(held, v) {
      var u :| u in held && v in held[u].withdraws;
      assert u !in added && grown[u] == held[u];
    }
    assert grown[newest] == added[newest];
  }

  lemma ReleasesAgreeOnward(held: Files, was: Record, record: Record, added: Files, newest: Version)
    requires Covers(held, was)
    requires SaidOnce(held)
    requires ReleasesAgree(held, was)
    requires Grows(was, record)
    requires Adds(held, record, added, newest)
    ensures ReleasesAgree(held + added, record)
  {
    var grown, now := held + added, ByVersion(record.releases);
    forall v | v in grown && v in now
      ensures (Given(grown[v].release.withdrawn) || ListedBack(grown, v)) <==> Given(now[v].withdrawn)
    {
      hide ListedBack;
      hide CitedIn, ByVersion, WithdrawnReleases, WithdrawnIds, LateRequirements, Tells, CarriesNone, Given, Ids;
      ListedBackOnward(held, record, added, newest, v);
      if v in held {
        WithdrawnReleasesMeans(held, v);
      } else {
        NoneTakenBack(held, v);
      }
    }
  }

  lemma NoneTakenBack(held: Files, v: Version)
    requires SaidOnce(held)
    requires v !in held
    ensures !ListedBack(held, v)
  {
  }

  lemma GoneOnward(held: Files, record: Record, added: Files, newest: Version, id: string)
    requires Adds(held, record, added, newest)
    ensures ListedGone(held + added, id) <==> ListedGone(held, id) || id in added[newest].withdrawnRequirements
    ensures ToldGone(held + added, id) <==> ToldGone(held, id) || ToldGone(added, id)
    ensures ToldLive(held + added, id) <==> ToldLive(held, id) || ToldLive(added, id)
    ensures CitedByFiles(held + added, id) <==> CitedByFiles(held, id) || CitedByFiles(added, id)
  {
    hide CitedIn, ByVersion, CarriesLate, Tells;
    var grown := held + added;
    assert grown[newest] == added[newest];
    assert forall u | u in held :: u !in added && grown[u] == held[u];
    assert forall u | u in added :: grown[u] == added[u];
  }

  /** The files just added tell `id` as `record` does. */
  lemma AddedTell(held: Files, record: Record, added: Files, newest: Version, id: string)
    requires Adds(held, record, added, newest)
    requires id in record.requirements
    ensures CitedByFiles(added, id) <==> ToldGone(added, id) || ToldLive(added, id)
    ensures ToldGone(added, id) ==> record.requirements[id].about.Gone?
    ensures ToldLive(added, id) ==> record.requirements[id].about.Live?
  {
    hide CitedIn, ByVersion, CarriesLate, CarriesNone;
    if CitedByFiles(added, id) {
      var v :| v in added && id in CitedIn(added[v].release);
      assert Tells(record, added[v]);
      assert id in added[v].requirements;
    }
  }

  lemma CitedTell(held: Files, was: Record, id: string)
    requires Covers(held, was)
    ensures CitedByFiles(held, id) <==> ToldGone(held, id) || ToldLive(held, id)
  {
    hide CitedIn, ByVersion;
    if CitedByFiles(held, id) {
      var v :| v in held && id in CitedIn(held[v].release);
      assert id in held[v].requirements;
      assert held[v].requirements[id].Gone? || held[v].requirements[id].Live?;
    }
  }

  lemma LateIds(held: Files, record: Record, added: Files, newest: Version, id: string)
    requires Adds(held, record, added, newest)
    ensures id in added[newest].withdrawnRequirements
            <==> id in record.requirements && record.requirements[id].about.Gone?
                 && !ListedGone(held, id) && !ToldGone(held, id) && CitedByFiles(held, id)
  {
    hide CitedIn, ByVersion, Tells, CarriesNone, WithdrawnReleases, ListedGone, ToldGone, CitedByFiles, WithdrawnIds;
    WithdrawnIdsMeans(held, id);
    assert id in added[newest].withdrawnRequirements <==> id in Ids(added[newest].withdrawnRequirements);
  }

  lemma RequirementsAgreeOnward(held: Files, was: Record, record: Record, added: Files, newest: Version)
    requires Covers(held, was)
    requires SaidOnce(held)
    requires RequirementsAgree(held, was)
    requires Grows(was, record)
    requires Adds(held, record, added, newest)
    ensures RequirementsAgree(held + added, record)
  {
    var grown := held + added;
    forall id | id in record.requirements && CitedByFiles(grown, id)
      ensures (ListedGone(grown, id) || ToldGone(grown, id)) <==> record.requirements[id].about.Gone?
      ensures ToldGone(grown, id) && ToldLive(grown, id) ==> ListedGone(grown, id)
    {
      GoneOnward(held, record, added, newest, id);
      AddedTell(held, record, added, newest, id);
      CitedTell(held, was, id);
      LateIds(held, record, added, newest, id);
      if CitedByFiles(held, id) {
        CitedKnown(held, was, id);
      }
      hide *;
    }
  }

  lemma CitedKnown(held: Files, was: Record, id: string)
    requires Covers(held, was)
    requires CitedByFiles(held, id)
    ensures id in was.requirements
  {
    hide CitedIn, ByVersion;
    var v :| v in held && id in CitedIn(held[v].release);
    assert id in held[v].requirements;
  }

  lemma SaidOnceOnward(held: Files, was: Record, record: Record, added: Files, newest: Version)
    requires Covers(held, was)
    requires SaidOnce(held)
    requires Adds(held, record, added, newest)
    ensures SaidOnce(held + added)
  {
    hide Covers, Adds, TakesBackOnce, ListsOnce;
    var grown := held + added;
    forall u, v | u in grown && v in grown[u].withdraws
      ensures TakesBackOnce(grown, u, v)
    {
      BackOnce(held, was, record, added, newest, u, v);
    }
    forall u, id | u in grown && id in grown[u].withdrawnRequirements
      ensures ListsOnce(grown, u, id)
    {
      GoneOnce(held, record, added, newest, u, id);
    }
  }

  /** Only the newest of the added files carries anything late. */
  lemma OnlyNewest(held: Files, record: Record, added: Files, newest: Version, u: Version)
    requires Adds(held, record, added, newest)
    requires u in held + added
    ensures u in added && u != newest ==> CarriesNone(added[u])
    ensures if u in added then u !in held && (held + added)[u] == added[u]
            else u in held && (held + added)[u] == held[u]
  {
    hide CarriesLate, CarriesNone, Tells, ByVersion;
  }

  lemma BackOnce(held: Files, was: Record, record: Record, added: Files, newest: Version, u: Version, v: Version)
    requires Covers(held, was)
    requires SaidOnce(held)
    requires Adds(held, record, added, newest)
    requires u in held + added
    requires v in (held + added)[u].withdraws
    ensures TakesBackOnce(held + added, u, v)
  {
    hide CitedIn, ByVersion, WithdrawnReleases, WithdrawnIds, Tells, LateRequirements;
    var grown := held + added;
    WithdrawnReleasesMeans(held, v);
    OnlyNewest(held, record, added, newest, u);
    forall t | t in grown && v in grown[t].withdraws
      ensures t == u
    {
      OnlyNewest(held, record, added, newest, t);
    }
  }

  lemma GoneOnce(held: Files, record: Record, added: Files, newest: Version, u: Version, id: string)
    requires SaidOnce(held)
    requires Adds(held, record, added, newest)
    requires u in held + added
    requires id in (held + added)[u].withdrawnRequirements
    ensures ListsOnce(held + added, u, id)
  {
    hide CitedIn, ByVersion, WithdrawnReleases, WithdrawnIds, Tells, CarriesLate;
    var grown := held + added;
    LateIds(held, record, added, newest, id);
    GoneOnward(held, record, added, newest, id);
    OnlyNewest(held, record, added, newest, u);
    forall t | t in grown && id in grown[t].withdrawnRequirements
      ensures t == u
    {
      OnlyNewest(held, record, added, newest, t);
    }
  }

  // ------------------------------------------------------ over a history

  lemma AgreesOnward(held: Files, was: Record, record: Record)
    requires Agrees(held, was)
    requires Grows(was, record)
    requires Sound(record)
    requires Missing(record.releases, held) != []
    ensures Agrees(Put(held, record), record)
  {
    hide Missing, Unwritten, Adds, Covers, ReleasesAgree, RequirementsAgree, SaidOnce, Grows, Distinct;
    var newest := UnwrittenMeans(record, held);
    var added := Unwritten(record, held);
    CoversOnward(held, was, record, added, newest);
    ReleasesAgreeOnward(held, was, record, added, newest);
    RequirementsAgreeOnward(held, was, record, added, newest);
    SaidOnceOnward(held, was, record, added, newest);
  }

  /** After any growing history the files agree with the last record whose write added one. */
  lemma {:induction false} HistoryAgrees(history: seq<Record>)
    requires Growing(history)
    ensures Agrees(After(history), Settled(history))
  {
    hide Agrees, Missing, Put, Grows, Sound;
    if history == [] {
      NothingAgrees();
    } else {
      var init, last := history[..|history| - 1], history[|history| - 1];
      HistoryAgrees(init);
      if Adding(history) {
        SettledBefore(history);
        AgreesOnward(After(init), Settled(init), last);
      } else {
        NoneAdded(After(init), last);
      }
    }
  }

  lemma NothingAgrees()
    ensures Agrees(map[], NOTHING)
  {
  }

  lemma NoneAdded(held: Files, record: Record)
    requires Sound(record)
    requires Missing(record.releases, held) == []
    ensures Put(held, record) == held
  {
    assert Unwritten(record, held) == map[];
  }

  /** The record settled before the last write grows into the one just written. */
  lemma SettledBefore(history: seq<Record>)
    requires Growing(history)
    requires history != []
    ensures Grows(Settled(history[..|history| - 1]), history[|history| - 1])
  {
    var init, last := history[..|history| - 1], history[|history| - 1];
    SettledGrows(init);
    if init != [] {
      assert Grows(history[|init| - 1], history[|init|]);
      GrowsOnward(Settled(init), init[|init| - 1], last);
    }
  }
}
