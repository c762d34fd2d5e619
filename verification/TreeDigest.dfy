/** A plugin's tree, the listing its digest is taken of, and the walk that must agree with it. */
module TreeDigest {
  import opened Recognisers
  import opened Sorting
  import opened Texts

  const MANIFEST := "plugin.toml"
  const CONFIG := "config"
  const CONFORMANCE := "conformance"

  /** The size of the buffer a file is read through. */
  const PIECE := 65536

  /** SHA-256 in lower-case hexadecimal. Bytes and the text they spell are one type here. */
  type Hash = string -> string

  ghost predicate Hexadecimal(hash: Hash) {
    forall bytes :: IsHex(hash(bytes), DIGEST_DIGITS)
  }

  /** Whether these two texts, apart, have one hash. */
  predicate Clash(hash: Hash, a: string, b: string) {
    a != b && hash(a) == hash(b)
  }

  /** Which paths count towards a digest, given the services and fixtures of the manifest. */
  predicate Holds(path: string, services: seq<string>, fixtures: set<string>) {
    || StartsWith(path, CONFORMANCE + "/")
    || path in fixtures
    || exists id | id in services :: StartsWith(path, CONFIG + "/" + id + "/")
  }

  // ------------------------------------------------------- the listing

  function Line(sum: string, path: string): string {
    sum + "  " + path + "\n"
  }

  ghost function Lines(paths: seq<string>, sums: map<string, string>): string
    requires forall p | p in paths :: p in sums
  {
    if paths == [] then [] else Line(sums[paths[0]], paths[0]) + Lines(paths[1..], sums)
  }

  /** One line a file, sorted by path. */
  ghost function Listing(sums: map<string, string>): string {
    Lines(SortedTexts(sums.Keys), sums)
  }

  /** A digest from sums alone: the manifest is summed in at its own path. */
  ghost function DigestOfSums(hash: Hash, manifest: string, sums: map<string, string>): string {
    DIGEST_PREFIX + hash(Listing(sums[MANIFEST := hash(manifest)]))
  }

  ghost function Digest(hash: Hash, manifest: string, files: map<string, string>): string {
    DigestOfSums(hash, manifest, map p | p in files :: hash(files[p]))
  }

  /** One line for each of `paths`: a hash, two spaces, the path; the manifest's path has the hash of
      the manifest. */
  function Printed(hash: Hash, manifest: string, files: map<string, string>, paths: seq<string>): string
    requires forall p | p in paths :: p == "plugin.toml" || p in files
  {
    if paths == [] then ""
    else
      var last := paths[|paths| - 1];
      Printed(hash, manifest, files, paths[..|paths| - 1])
      + hash(if last == "plugin.toml" then manifest else files[last]) + "  " + last + "\n"
  }

  function LineOf(hash: Hash, manifest: string, files: map<string, string>, path: string): string
    requires path == "plugin.toml" || path in files
  {
    hash(if path == "plugin.toml" then manifest else files[path]) + "  " + path + "\n"
  }

  lemma PrintedMore(hash: Hash, manifest: string, files: map<string, string>, paths: seq<string>)
    requires paths != [] && forall p | p in paths :: p == "plugin.toml" || p in files
    ensures Printed(hash, manifest, files, paths)
            == Printed(hash, manifest, files, paths[..|paths| - 1])
               + LineOf(hash, manifest, files, paths[|paths| - 1])
  {
    var before := Printed(hash, manifest, files, paths[..|paths| - 1]);
    var last := paths[|paths| - 1];
    var sum := hash(if last == "plugin.toml" then manifest else files[last]);
    assert before + sum + "  " + last + "\n" == before + (sum + "  " + last + "\n");
  }

  lemma LineAt(hash: Hash, manifest: string, files: map<string, string>, path: string)
    requires path == "plugin.toml" || path in files
    ensures path in Summed(hash, manifest, files)
    ensures LineOf(hash, manifest, files, path) == Lines([path], Summed(hash, manifest, files))
  {
    OneLine(path, Summed(hash, manifest, files));
  }

  lemma {:induction false} PrintedLines(hash: Hash, manifest: string, files: map<string, string>, paths: seq<string>)
    requires forall p | p in paths :: p == "plugin.toml" || p in files
    ensures forall p | p in paths :: p in Summed(hash, manifest, files)
    ensures Printed(hash, manifest, files, paths) == Lines(paths, Summed(hash, manifest, files))
  {
    var sums := Summed(hash, manifest, files);
    if paths == [] {
      assert Lines(paths, sums) == "";
    } else {
      var init, last := paths[..|paths| - 1], paths[|paths| - 1];
      assert paths == init + [last];
      PrintedMore(hash, manifest, files, paths);
      hide Lines, Summed, Printed, LineOf;
      PrintedLines(hash, manifest, files, init);
      LineAt(hash, manifest, files, last);
      LinesConcat(init, [last], sums);
    }
  }

  lemma OneLine(path: string, sums: map<string, string>)
    requires path in sums
    ensures Lines([path], sums) == sums[path] + "  " + path + "\n"
  {
    assert [path][1..] == [] && Lines([], sums) == "";
    assert Lines([path], sums) == Line(sums[path], path) + "";
  }

  /** A digest is the prefix and the hash of those lines, for the one listing of every path in order. */
  lemma DigestReads(hash: Hash, manifest: string, files: map<string, string>, paths: seq<string>)
    requires forall p :: p in paths <==> p == "plugin.toml" || p in files
    requires forall i, j | 0 <= i < j < |paths| :: Before(paths[i], paths[j])
    ensures Digest(hash, manifest, files) == "sha256:" + hash(Printed(hash, manifest, files, paths))
  {
    hide Before, SortedTexts, Lines, Printed;
    DigestLists(hash, manifest, files);
    PrintedLines(hash, manifest, files, paths);
    SortedList(paths, Summed(hash, manifest, files).Keys);
  }

  /** `listed`: the manifest's sum put beside the files', then a line written for each in order. */
  method Listed(hash: Hash, manifest: string, given: map<string, string>) returns (digest: string)
    ensures digest == DigestOfSums(hash, manifest, given)
  {
    var sums := given[MANIFEST := hash(manifest)];
    var listing := Written(SortedTexts(sums.Keys), sums);
    return DIGEST_PREFIX + hash(listing);
  }

  /** `digest`: the sum of every file, listed. */
  method DigestFiles(hash: Hash, manifest: string, files: map<string, string>) returns (digest: string)
    ensures digest == Digest(hash, manifest, files)
  {
    digest := Listed(hash, manifest, map p | p in files :: hash(files[p]));
  }

  method Written(paths: seq<string>, sums: map<string, string>) returns (listing: string)
    requires forall p | p in paths :: p in sums
    ensures listing == Lines(paths, sums)
  {
    listing := [];
    for i := 0 to |paths|
      invariant listing + Lines(paths[i..], sums) == Lines(paths, sums)
    {
      var path := paths[i];
      assert paths[i..][0] == path && paths[i..][1..] == paths[i + 1..];
      Appended(listing, Line(sums[path], path), Lines(paths[i + 1..], sums));
      listing := listing + Line(sums[path], path);
    }
    assert paths[|paths|..] == [];
  }

  lemma Appended(before: string, line: string, after: string)
    ensures before + (line + after) == (before + line) + after
  {
  }

  /** The digest of a file read a piece at a time into one reused buffer is the digest of the whole
      file, however large. */
  method Digested(hash: Hash, file: string) returns (sum: string)
    ensures sum == hash(file)
  {
    var context, read, piece := [], 0, [];
    while true
      invariant 0 <= read <= |file|
      invariant context == file[..read]
      invariant piece == []
      decreases |file| - read
    {
      var taken := if |file| - read < PIECE then |file| - read else PIECE;
      piece := piece + file[read..read + taken];
      if |piece| == 0 {
        break;
      }
      assert file[..read] + file[read..read + taken] == file[..read + taken];
      context := context + piece;
      read := read + taken;
      piece := [];
    }
    assert file[..read] == file;
    return hash(context);
  }

  /** A path that spells the end of its own line and the start of another's: a line feed, a sum and
      two spaces. */
  predicate SpellsALine(path: string) {
    exists i | 0 <= i < |path| :: path[i] == '\n' && OpensALine(path[i + 1..])
  }

  predicate OpensALine(text: string) {
    && |text| >= DIGEST_DIGITS + 2
    && IsHex(text[..DIGEST_DIGITS], DIGEST_DIGITS)
    && text[DIGEST_DIGITS..DIGEST_DIGITS + 2] == "  "
  }

  ghost predicate Listable(paths: seq<string>, sums: map<string, string>) {
    forall x | x in paths :: x in sums && !SpellsALine(x) && IsHex(sums[x], DIGEST_DIGITS)
  }

  /** Two listings of one text list the same paths at the same sums, where no path spells a line. */
  lemma {:induction false} LinesTellApart(p: seq<string>, a: map<string, string>,
                                          q: seq<string>, b: map<string, string>)
    requires Listable(p, a) && Listable(q, b)
    requires Lines(p, a) == Lines(q, b)
    ensures p == q
    ensures forall x | x in p :: a[x] == b[x]
  {
    if p == [] || q == [] {
      assert p == q;
    } else {
      var rest, rest' := Lines(p[1..], a), Lines(q[1..], b);
      assert p[0] in p && q[0] in q;
      LinesOpen(p[1..], a);
      LinesOpen(q[1..], b);
      FirstLine(a[p[0]], p[0], rest, b[q[0]], q[0], rest');
      LinesTellApart(p[1..], a, q[1..], b);
      assert p == [p[0]] + p[1..] && q == [q[0]] + q[1..];
    }
  }

  lemma LinesOpen(p: seq<string>, a: map<string, string>)
    requires Listable(p, a)
    ensures Lines(p, a) == "" || OpensALine(Lines(p, a))
  {
    if p != [] {
      var text := Lines(p, a);
      assert p[0] in p;
      assert text[..DIGEST_DIGITS] == a[p[0]];
      assert text[DIGEST_DIGITS..DIGEST_DIGITS + 2] == "  ";
    }
  }

  /** Two texts that open with a line, each followed by nothing or by another, are one text only
      where the lines and what follows them are. */
  lemma FirstLine(sum: string, path: string, rest: string, sum': string, path': string, rest': string)
    requires |sum| == |sum'| == DIGEST_DIGITS
    requires !SpellsALine(path) && !SpellsALine(path')
    requires (rest == "" || OpensALine(rest)) && (rest' == "" || OpensALine(rest'))
    requires Line(sum, path) + rest == Line(sum', path') + rest'
    ensures sum == sum' && path == path' && rest == rest'
  {
    var text := Line(sum, path) + rest;
    assert sum == text[..DIGEST_DIGITS] == sum';
    var tail := text[DIGEST_DIGITS + 2..];
    assert tail == path + ['\n'] + rest;
    assert tail == path' + ['\n'] + rest';
    if |path| < |path'| {
      LongerSpells(path, rest, path', rest');
    } else if |path'| < |path| {
      LongerSpells(path', rest', path, rest);
    } else {
      assert path == tail[..|path|] && rest == tail[|path| + 1..];
      assert path' == tail[..|path|] && rest' == tail[|path| + 1..];
    }
  }

  /** Where one text is cut at two line feeds, what the longer path holds past the first spells the
      line that opens what follows the shorter. */
  lemma LongerSpells(path: string, rest: string, path': string, rest': string)
    requires |path| < |path'|
    requires rest == "" || OpensALine(rest)
    requires path + ['\n'] + rest == path' + ['\n'] + rest'
    ensures SpellsALine(path')
  {
    var whole := path + ['\n'] + rest;
    var more := path'[|path| + 1..];
    assert path'[|path|] == whole[|path|] == '\n';
    assert rest == whole[|path| + 1..] == more + ['\n'] + rest';
    assert rest[|more|] == '\n';
    assert forall i | 0 <= i < DIGEST_DIGITS ::
        rest[..DIGEST_DIGITS][i] == rest[i] && rest[..DIGEST_DIGITS][i] in rest[..DIGEST_DIGITS];
    assert rest[DIGEST_DIGITS] == rest[DIGEST_DIGITS..DIGEST_DIGITS + 2][0];
    assert rest[DIGEST_DIGITS + 1] == rest[DIGEST_DIGITS..DIGEST_DIGITS + 2][1];
    assert |more| >= DIGEST_DIGITS + 2;
    assert more[..DIGEST_DIGITS] == rest[..DIGEST_DIGITS];
    assert more[DIGEST_DIGITS..DIGEST_DIGITS + 2] == rest[DIGEST_DIGITS..DIGEST_DIGITS + 2];
  }

  /** Whether a path of both trees, other than the manifest's, holds texts that clash. */
  ghost predicate FilesClash(hash: Hash, f: map<string, string>, g: map<string, string>) {
    exists p :: p in f && p in g && p != MANIFEST && Clash(hash, f[p], g[p])
  }

  /** Whether two of the very texts hashed for two trees clash: their listings, their manifests, or
      what they hold at one path. */
  ghost predicate Clashing(hash: Hash, m: string, f: map<string, string>, n: string, g: map<string, string>) {
    || Clash(hash, Listing(Summed(hash, m, f)), Listing(Summed(hash, n, g)))
    || Clash(hash, m, n)
    || FilesClash(hash, f, g)
  }

  /** A tree's digest names one tree: where no path spells a line, equal digests mean the same
      manifest and the same files, unless texts hashed for the two clash. */
  lemma DigestNamesOneTree(hash: Hash, m: string, f: map<string, string>, n: string, g: map<string, string>)
    requires Hexadecimal(hash)
    requires forall p | p in f.Keys + g.Keys :: !SpellsALine(p)
    requires Digest(hash, m, f) == Digest(hash, n, g)
    ensures Clashing(hash, m, f, n, g) || (m == n && f - {MANIFEST} == g - {MANIFEST})
  {
    hide Digest, Listing, Summed, SpellsALine, Hexadecimal, FilesClash;
    DigestLists(hash, m, f);
    DigestLists(hash, n, g);
    var a, b := Listing(Summed(hash, m, f)), Listing(Summed(hash, n, g));
    assert Digest(hash, m, f)[|DIGEST_PREFIX|..] == hash(a) == hash(b);
    if a == b {
      ListingsTellApart(hash, m, f, n, g);
      SumsTellApart(hash, m, f, n, g);
    }
  }

  /** What `Digest` lists. */
  ghost function Summed(hash: Hash, manifest: string, files: map<string, string>): map<string, string> {
    (map p | p in files :: hash(files[p]))[MANIFEST := hash(manifest)]
  }

  /** Trees listed alike have the same paths at the same sums, where no path spells a line. */
  lemma ListingsTellApart(hash: Hash, m: string, f: map<string, string>, n: string, g: map<string, string>)
    requires Hexadecimal(hash)
    requires forall p | p in f.Keys + g.Keys :: !SpellsALine(p)
    requires Listing(Summed(hash, m, f)) == Listing(Summed(hash, n, g))
    ensures Summed(hash, m, f) == Summed(hash, n, g)
  {
    var a, b := Summed(hash, m, f), Summed(hash, n, g);
    var p := PathsOf(a);
    var q := PathsOf(b);
    SummedSound(hash, m, f, p);
    SummedSound(hash, n, g, q);
    SameLines(p, a, q, b);
  }

  lemma SameLines(p: seq<string>, a: map<string, string>, q: seq<string>, b: map<string, string>)
    requires forall x :: x in p <==> x in a
    requires forall x :: x in q <==> x in b
    requires Listable(p, a) && Listable(q, b)
    requires Lines(p, a) == Lines(q, b)
    ensures a == b
  {
    LinesTellApart(p, a, q, b);
    assert a.Keys == b.Keys;
  }

  lemma PathsOf(sums: map<string, string>) returns (paths: seq<string>)
    ensures forall x :: x in paths <==> x in sums
    ensures Listing(sums) == Lines(paths, sums)
  {
    paths := SortedTexts(sums.Keys);
  }

  lemma SummedSound(hash: Hash, m: string, f: map<string, string>, p: seq<string>)
    requires Hexadecimal(hash)
    requires forall x | x in f :: !SpellsALine(x)
    requires forall x | x in p :: x in Summed(hash, m, f)
    ensures Listable(p, Summed(hash, m, f))
  {
    assert '\n' !in MANIFEST;
    hide OpensALine, IsHex;
  }

  /** Trees with the same sums are the same, unless two texts summed at one path clash. */
  lemma SumsTellApart(hash: Hash, m: string, f: map<string, string>, n: string, g: map<string, string>)
    requires Summed(hash, m, f) == Summed(hash, n, g)
    ensures Clash(hash, m, n) || FilesClash(hash, f, g) || (m == n && f - {MANIFEST} == g - {MANIFEST})
  {
    var a, b := Summed(hash, m, f), Summed(hash, n, g);
    assert a[MANIFEST] == hash(m) && b[MANIFEST] == hash(n);
    if !FilesClash(hash, f, g) {
      forall x
        ensures x in f - {MANIFEST} <==> x in g - {MANIFEST}
        ensures x in f - {MANIFEST} ==> f[x] == g[x]
      {
        if x != MANIFEST {
          assert x in f <==> x in a;
          assert x in g <==> x in b;
          if x in f {
            assert a[x] == hash(f[x]) && b[x] == hash(g[x]);
            assert !Clash(hash, f[x], g[x]);
          }
        }
      }
    }
  }

  // ---------------------------------------------------------- line feeds

  /** The path that lists as the file `a` and, after it, the file `b` of sum `sum`. */
  function Spelling(a: string, sum: string, b: string): string {
    a + "\n" + sum + "  " + b
  }

  /** Whether no path of `keys` comes between `a`, `b` and `long`, so that each stands where the
      others would. */
  ghost predicate StandsAlike(keys: set<string>, a: string, b: string, long: string) {
    forall k | k in keys :: Before(k, a) || (Before(b, k) && Before(long, k))
  }

  /** Whether a tree's path spells a line for the files `a` and `b`, in a place where they would do
      as well. */
  ghost predicate Confusable(hash: Hash, f: map<string, string>, a: string, b: string, y: string) {
    var long := Spelling(a, hash(y), b);
    && long in f && Before(a, b)
    && a !in f && b !in f && a != MANIFEST && b != MANIFEST
    && StandsAlike(f.Keys + {MANIFEST} - {long}, a, b, long)
  }

  /** The tree with those two files in place of the one. */
  function Confused(hash: Hash, f: map<string, string>, a: string, b: string, y: string): map<string, string>
    requires Spelling(a, hash(y), b) in f
  {
    var long := Spelling(a, hash(y), b);
    (f - {long})[a := f[long]][b := y]
  }

  /** Any such tree shares its digest, whatever the hash, with another: the one that holds the two
      files that are spelt. */
  lemma LineFeedsConfuse(hash: Hash, manifest: string, f: map<string, string>, a: string, b: string, y: string)
    requires Confusable(hash, f, a, b, y)
    ensures Confused(hash, f, a, b, y) != f
    ensures Digest(hash, manifest, f) == Digest(hash, manifest, Confused(hash, f, a, b, y))
  {
    hide Spelling, Before, SortedTexts, Lines, Line, Listing, Digest, DigestOfSums, Summed, StandsAlike, Ascends;
    var long := Spelling(a, hash(y), b);
    var g := (f - {long})[a := f[long]][b := y];
    var before, after := Summed(hash, manifest, f), Summed(hash, manifest, g);
    var others := f.Keys + {MANIFEST} - {long};
    SpellingLong(a, hash(y), b);
    BeforeStrict(a);
    var low, high := Around(others, a, b, long);
    SpeltSums(hash, manifest, f, a, b, y, long);
    assert forall k | k in low + high :: k in others && before[k] == after[k];
    ListingAround(before, others, low, [long], high);
    ListingAround(after, others, low, [a, b], high);
    assert forall k | k in low :: k in low + high;
    assert forall k | k in high :: k in low + high;
    SameSumLines(low, before, after);
    SameSumLines(high, before, after);
    SpeltLine(hash(f[long]), a, hash(y), b, before, after);
    assert a in g;
    DigestLists(hash, manifest, f);
    DigestLists(hash, manifest, g);
  }

  lemma DigestLists(hash: Hash, manifest: string, f: map<string, string>)
    ensures Digest(hash, manifest, f) == DIGEST_PREFIX + hash(Listing(Summed(hash, manifest, f)))
  {
  }

  lemma SpellingLong(a: string, sum: string, b: string)
    ensures Before(a, Spelling(a, sum, b))
    ensures Spelling(a, sum, b) != a && Spelling(a, sum, b) != b && Spelling(a, sum, b) != MANIFEST
  {
    var more := "\n" + sum + "  " + b;
    assert Spelling(a, sum, b) == a + more;
    PrefixBefore(a, more);
    assert Spelling(a, sum, b)[|a|] == '\n' && '\n' !in MANIFEST;
  }

  lemma SpeltSums(hash: Hash, manifest: string, f: map<string, string>, a: string, b: string, y: string, long: string)
    requires long in f && long != MANIFEST && long != a && long != b && a != b
    requires a !in f && b !in f && a != MANIFEST && b != MANIFEST
    ensures var g := (f - {long})[a := f[long]][b := y];
            var before, after := Summed(hash, manifest, f), Summed(hash, manifest, g);
            var others := f.Keys + {MANIFEST} - {long};
            && (forall k :: k in before <==> k in others || k in [long])
            && (forall k :: k in after <==> k in others || k in [a, b])
            && (forall k | k in others :: before[k] == after[k])
            && before[long] == hash(f[long]) && after[a] == hash(f[long]) && after[b] == hash(y)
  {
  }

  /** Every path of `others`, in order, as those before the three and those after. */
  lemma Around(others: set<string>, a: string, b: string, long: string) returns (low: seq<string>, high: seq<string>)
    requires Before(a, b) && Before(a, long)
    requires StandsAlike(others, a, b, long)
    ensures forall k :: k in low + high <==> k in others
    ensures Ascends(low + [long] + high) && Ascends(low + [a, b] + high)
  {
    var below := set k | k in others && Before(k, a);
    low, high := SortedTexts(below), SortedTexts(others - below);
    hide SortedTexts, Before;
    forall l, h | l in low && h in high
      ensures Before(l, long) && Before(l, b) && Before(l, h)
    {
      BeforeTransitive(l, a, long);
      BeforeTransitive(l, a, b);
      BeforeTransitive(l, b, h);
    }
    forall l | l in low
      ensures Before(l, long) && Before(l, b)
    {
      BeforeTransitive(l, a, long);
      BeforeTransitive(l, a, b);
    }
    forall h | h in high
      ensures Before(a, h)
    {
      BeforeTransitive(a, b, h);
    }
    AscendsAround(low, [long], high);
    AscendsAround(low, [a, b], high);
  }

  predicate Ascends(paths: seq<string>) {
    forall i, j | 0 <= i < j < |paths| :: Before(paths[i], paths[j])
  }

  lemma AscendsAround(low: seq<string>, middle: seq<string>, high: seq<string>)
    requires Ascends(low) && Ascends(middle) && Ascends(high)
    requires forall l, m | l in low && m in middle :: Before(l, m)
    requires forall m, h | m in middle && h in high :: Before(m, h)
    requires forall l, h | l in low && h in high :: Before(l, h)
    ensures Ascends(low + middle + high)
  {
    hide Before;
    var all := low + middle + high;
    var m, h := |low|, |low| + |middle|;
    forall i, j | 0 <= i < j < |all|
      ensures Before(all[i], all[j])
    {
      assert all[i] == if i < m then low[i] else if i < h then middle[i - m] else high[i - h];
      assert all[j] == if j < m then low[j] else if j < h then middle[j - m] else high[j - h];
    }
  }

  /** A listing in three parts, the paths of the middle one put among `others`. */
  lemma ListingAround(sums: map<string, string>, others: set<string>, low: seq<string>, middle: seq<string>,
                      high: seq<string>)
    requires forall k :: k in low + high <==> k in others
    requires forall k :: k in sums <==> k in others || k in middle
    requires Ascends(low + middle + high)
    ensures forall k | k in low + middle + high :: k in sums
    ensures Listing(sums) == Lines(low, sums) + Lines(middle, sums) + Lines(high, sums)
  {
    var all := low + middle + high;
    hide SortedTexts, Before, Lines;
    forall k
      ensures k in all <==> k in sums.Keys
    {
      assert k in all <==> k in low + high || k in middle;
    }
    SortedList(all, sums.Keys);
    LinesConcat(low + middle, high, sums);
    LinesConcat(low, middle, sums);
  }

  lemma {:induction false} LinesConcat(p: seq<string>, q: seq<string>, sums: map<string, string>)
    requires forall x | x in p + q :: x in sums
    ensures Lines(p + q, sums) == Lines(p, sums) + Lines(q, sums)
  {
    assert forall x | x in p :: x in p + q;
    assert forall x | x in q :: x in p + q;
    if p == [] {
      assert p + q == q;
    } else {
      assert (p + q)[1..] == p[1..] + q;
      LinesConcat(p[1..], q, sums);
      Appended(Line(sums[p[0]], p[0]), Lines(p[1..], sums), Lines(q, sums));
    }
  }

  lemma {:induction false} SameSumLines(paths: seq<string>, a: map<string, string>, b: map<string, string>)
    requires forall x | x in paths :: x in a && x in b && a[x] == b[x]
    ensures Lines(paths, a) == Lines(paths, b)
  {
    if paths != [] {
      SameSumLines(paths[1..], a, b);
    }
  }

  lemma SpeltLine(x: string, a: string, y: string, b: string, f: map<string, string>, g: map<string, string>)
    requires Spelling(a, y, b) in f && f[Spelling(a, y, b)] == x
    requires a in g && g[a] == x && b in g && g[b] == y
    ensures Lines([Spelling(a, y, b)], f) == Lines([a, b], g)
  {
    var long := Spelling(a, y, b);
    assert [long][1..] == [] && [a, b][1..] == [b] && [b][1..] == [];
    assert Lines([], f) == "" && Lines([], g) == "";
    assert Line(x, long) == Line(x, a) + Line(y, b);
    assert Lines([b], g) == Line(y, b) + "";
  }

  lemma SortedList(list: seq<string>, s: set<string>)
    requires forall x :: x in list <==> x in s
    requires forall i, j | 0 <= i < j < |list| :: Before(list[i], list[j])
    ensures SortedTexts(s) == list
  {
    TextOrders(s);
    SortedOnce(Before, s, SortedTexts(s), list);
  }

  /** A text sorts before every longer one it begins. */
  lemma {:induction false} PrefixBefore(a: string, more: string)
    requires more != ""
    ensures Before(a, a + more)
  {
    if a != [] {
      assert (a + more)[1..] == a[1..] + more;
      PrefixBefore(a[1..], more);
    }
  }
}
