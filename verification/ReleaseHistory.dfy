/** Whole histories of writes: what the immutable files fold back to, whatever was written when. */
module ReleaseHistory {
  import opened Sorting
  import opened ReleaseRecord

  // ------------------------------------------------------------- records

  ghost predicate Distinct(releases: seq<Release>) {
    forall i, j | 0 <= i < j < |releases| :: releases[i].version != releases[j].version
  }

  /** A record the script can write: its versions distinct, every citation among its requirements. */
  ghost predicate Sound(record: Record) {
    Distinct(record.releases) && Quotes(record, record.releases)
  }

  function ByVersion(releases: seq<Release>): map<Version, Release> {
    if releases == [] then map[]
    else
      var last := releases[|releases| - 1];
      ByVersion(releases[..|releases| - 1])[last.version := last]
  }

  lemma {:induction false} ByVersionMeans(releases: seq<Release>)
    requires Distinct(releases)
    ensures forall one | one in releases ::
              one.version in ByVersion(releases) && ByVersion(releases)[one.version] == one
    ensures forall v | v in ByVersion(releases) ::
              ByVersion(releases)[v] in releases && ByVersion(releases)[v].version == v
  {
    if releases != [] {
      var rest, last := releases[..|releases| - 1], releases[|releases| - 1];
      ByVersionMeans(rest);
      forall one | one in releases
        ensures one.version in ByVersion(releases) && ByVersion(releases)[one.version] == one
      {
        if one != last {
          assert one in rest;
        }
      }
    }
  }

  /** Between two records, releases, requirements and withdrawals only grow; what a release says, and
      cites, may be put differently. */
  ghost predicate Grows(earlier: Record, later: Record) {
    var was, now := ByVersion(earlier.releases), ByVersion(later.releases);
    && (forall v | v in was ::
          && v in now
          && (Given(was[v].withdrawn) ==> Given(now[v].withdrawn)))
    && (forall id | id in earlier.requirements ::
          && id in later.requirements
          && (earlier.requirements[id].about.Gone? ==> later.requirements[id].about.Gone?))
  }

  lemma GrowsOnward(a: Record, b: Record, c: Record)
    requires Grows(a, b)
    requires Grows(b, c)
    ensures Grows(a, c)
  {
  }

  const NOTHING := Record([], map[])

  // ----------------------------------------------------------- histories

  /** The directory after `record` is written into one holding `held`. */
  function Put(held: Files, record: Record): Files
    requires Sound(record)
  {
    held + Unwritten(record, held)
  }

  ghost predicate AllSound(history: seq<Record>) {
    forall i | 0 <= i < |history| :: Sound(history[i])
  }

  /** The directory after every record of `history` was written, in order, into an empty one. */
  ghost function After(history: seq<Record>): Files
    requires AllSound(history)
  {
    if history == [] then map[]
    else Put(After(history[..|history| - 1]), history[|history| - 1])
  }

  ghost predicate Growing(history: seq<Record>) {
    && AllSound(history)
    && forall i, j | 0 <= i < j < |history| && j == i + 1 :: Grows(history[i], history[j])
  }

  /** Whether the last write of `history` added a file. */
  ghost predicate Adding(history: seq<Record>)
    requires AllSound(history)
  {
    history != [] && Missing(history[|history| - 1].releases, After(history[..|history| - 1])) != []
  }

  /** The last record whose write added a file. */
  ghost function Settled(history: seq<Record>): Record
    requires AllSound(history)
  {
    if history == [] then NOTHING
    else if Adding(history) then history[|history| - 1]
    else Settled(history[..|history| - 1])
  }

  lemma {:induction false} SettledGrows(history: seq<Record>)
    requires Growing(history)
    ensures Sound(Settled(history))
    ensures history != [] ==> Grows(Settled(history), history[|history| - 1])
  {
    if history != [] {
      var init := history[..|history| - 1];
      SettledGrows(init);
      if init != [] {
        assert init[|init| - 1] == history[|init| - 1];
        assert Grows(history[|init| - 1], history[|init|]);
        GrowsOnward(Settled(init), init[|init| - 1], history[|history| - 1]);
      }
    }
  }

  // ------------------------------------------------------- what one write adds

  /** A file tells each requirement its release cites as the record does. */
  ghost predicate Tells(record: Record, document: Document) {
    && document.requirements.Keys == Ids(CitedIn(document.release))
    && forall id | id in document.requirements ::
         id in record.requirements && document.requirements[id] == record.requirements[id].about
  }

  /** A file carries each withdrawal the record gives and no kept file records yet. */
  ghost predicate CarriesLate(record: Record, held: Files, document: Document) {
    var now := ByVersion(record.releases);
    && (forall v :: v in document.withdraws <==>
          v in now && v in held && Given(now[v].withdrawn) && v !in WithdrawnReleases(held))
    && (forall v | v in document.withdraws :: document.withdraws[v] == now[v].withdrawn.value)
    && Ids(document.withdrawnRequirements) == LateRequirements(record, held, WithdrawnIds(held))
  }

  ghost predicate CarriesNone(document: Document) {
    document.withdraws == map[] && document.withdrawnRequirements == []
  }

  /** What `added` is, file by file, where `newest` is the one that carries what came late. */
  ghost predicate Adds(held: Files, record: Record, added: Files, newest: Version) {
    var now := ByVersion(record.releases);
    && newest in added
    && (forall v :: v in added <==> v in now && v !in held)
    && (forall v | v in added :: added[v].release == now[v] && now[v].version == v)
    && (forall v | v in added :: Tells(record, added[v]))
    && (forall v | v in added && v != newest :: CarriesNone(added[v]))
    && CarriesLate(record, held, added[newest])
  }

  lemma {:induction false} LateWithdrawsMeans(releases: seq<Release>, held: Files, already: set<Version>)
    requires Distinct(releases)
    ensures var now, late := ByVersion(releases), LateWithdraws(releases, held, already);
            && (forall v :: v in late <==> v in now && v in held && Given(now[v].withdrawn) && v !in already)
            && (forall v | v in late :: late[v] == now[v].withdrawn.value)
  {
    if releases != [] {
      var rest, last := releases[..|releases| - 1], releases[|releases| - 1];
      LateWithdrawsMeans(rest, held, already);
      ByVersionMeans(rest);
      assert last.version !in ByVersion(rest);
    }
  }

  lemma {:induction false} WrittenMeans(record: Record, held: Files, missing: seq<Release>, newest: Version)
    requires Quotes(record, missing)
    requires Distinct(missing)
    ensures var added, now := Written(record, held, missing, newest), ByVersion(missing);
            && added.Keys == now.Keys
            && (forall v | v in added ::
                  && Quotes(record, [now[v]])
                  && now[v].version == v
                  && added[v] == DocumentOf(record, held, now[v], v == newest))
  {
    if missing != [] {
      var rest, last := missing[..|missing| - 1], missing[|missing| - 1];
      assert forall one | one in rest :: one in missing;
      assert last in missing;
      hide DocumentOf, CitedIn;
      WrittenMeans(record, held, rest, newest);
    }
  }

  lemma {:induction false} MissingDistinct(releases: seq<Release>, held: Files)
    requires Distinct(releases)
    ensures Distinct(Missing(releases, held))
  {
    if releases != [] {
      var rest, last := releases[..|releases| - 1], releases[|releases| - 1];
      MissingDistinct(rest, held);
      var missing := Missing(rest, held);
      forall i | 0 <= i < |missing|
        ensures missing[i].version != last.version
      {
        assert missing[i] in rest;
      }
    }
  }

  lemma MissingMeans(releases: seq<Release>, held: Files)
    requires Distinct(releases)
    ensures Distinct(Missing(releases, held))
    ensures var now, missing := ByVersion(releases), ByVersion(Missing(releases, held));
            && (forall v :: v in missing <==> v in now && v !in held)
            && (forall v | v in missing :: missing[v] == now[v])
  {
    hide Missing, ByVersion;
    MissingDistinct(releases, held);
    ByVersionMeans(releases);
    ByVersionMeans(Missing(releases, held));
    forall v | v in ByVersion(releases) && v !in held
      ensures v in ByVersion(Missing(releases, held))
    {
      assert ByVersion(releases)[v] in Missing(releases, held);
    }
    forall v | v in ByVersion(Missing(releases, held))
      ensures v in ByVersion(releases) && v !in held && ByVersion(releases)[v] == ByVersion(Missing(releases, held))[v]
    {
      assert ByVersion(Missing(releases, held))[v] in releases;
    }
  }

  lemma DocumentTells(record: Record, held: Files, release: Release, carries: bool)
    requires Quotes(record, [release])
    ensures DocumentOf(record, held, release, carries).release == release
    ensures Tells(record, DocumentOf(record, held, release, carries))
  {
    hide CitedIn, WithdrawnReleases, WithdrawnIds, LateWithdraws, LateRequirements, SortedTexts;
    assert release in [release];
  }

  lemma IdsSorted(ids: set<string>)
    ensures Ids(SortedTexts(ids)) == ids
  {
  }

  lemma DocumentCarries(record: Record, held: Files, release: Release)
    requires Quotes(record, [release])
    requires Distinct(record.releases)
    ensures CarriesLate(record, held, DocumentOf(record, held, release, true))
    ensures CarriesNone(DocumentOf(record, held, release, false))
  {
    LateWithdrawsMeans(record.releases, held, WithdrawnReleases(held));
    IdsSorted(LateRequirements(record, held, WithdrawnIds(held)));
    hide Ids, Quotes, Distinct, CitedIn, WithdrawnReleases, WithdrawnIds, LateWithdraws, LateRequirements;
    hide SortedTexts, ByVersion;
  }

  lemma UnwrittenMeans(record: Record, held: Files) returns (newest: Version)
    requires Sound(record)
    requires Missing(record.releases, held) != []
    ensures Adds(held, record, Unwritten(record, held), newest)
  {
    hide Written, Missing, ByVersion, CitedIn, DocumentOf, Tells, CarriesLate, CarriesNone, Newest;
    var missing := Missing(record.releases, held);
    newest := Newest(missing);
    var added, now := Unwritten(record, held), ByVersion(missing);
    MissingMeans(record.releases, held);
    ByVersionMeans(missing);
    WrittenMeans(record, held, missing, newest);
    assert newest in now;
    forall v | v in added
      ensures added[v].release == now[v] && Tells(record, added[v])
      ensures if v == newest then CarriesLate(record, held, added[v]) else CarriesNone(added[v])
    {
      DocumentTells(record, held, now[v], v == newest);
      DocumentCarries(record, held, now[v]);
    }
  }
}
