# Lemonfiber, modelled and proved

A Dafny model of six parts of Lemonfiber, each with the properties its code is written for proved over every input,
run or history. `dafny verify dfyconfig.toml` checks all of it.

- **The bundle rules and the stack assembler** (`Toml`, `Bundles`, `Recognisers`, `BundleRules`, `BundleChecker`,
  `Assembly`, `KeptParts`; theorems in `BundleSoundness`, `BundleFillers`, `BundleProviding`, `EmptyFiller`, and in
  `Shapes`, `RulesRead`, `RulesKept`, `StackFields`, `StandInFields`, `WrittenStack`, which say what is accepted and
  what is written row by row and key by key). The rules read a bundle and the copies beside it; assembling and keeping rewrite them as one stack manifest. The theorem joins
  the two: no rule broken means the rewriting cannot fail, and says what it writes.
- **Trees, walks and the tree digest** (`Trees`, `TreeDigest`, `Lookups`, `CheckoutFiles`, `Checkout`,
  `PluginTrees`). Worklist walks over a disk, a digest computed from a walk that agrees with one defined by membership,
  and what a pinned digest says of the copy held under it.
- **The write-once release record** (`ReleaseRecord`, `ReleaseHistory`, `ReleaseAgreement`, `ReleaseFold`,
  `ReleaseWhole`, `ReleaseFiles`), its formatter (`JsonText`, `JsonLayout`), and the sections and groups a release is
  made of (`Changelog`, `ChangelogReads`). An
  append-only directory whose later files carry what arose late, and a fold that must agree with the record recomputed.
- **The job register** (`Jobs`, `JobRuns`, `JobPromises`). A locked map, a class updated in place, and every
  interleaving of its steps with the tasks it starts.
- **Shared-directory files** (`Disks`, `SharedFiles`, `SharedSafety`, `SharedCompletion`, `SharedRuns`,
  `SharedReads`). Two protocols of system calls, a write's and a read's, failing at any step, interleaved with another
  process, and a write stopped after any step with the next one following it.
- **The conformance vocabulary** (`Placeholders`, `Conformance`, `ContractGrowth`, `ConformanceReads`). A printer and a parser that undo
  each other, and verdicts that stay true as a contract grows by minors.

Where the program loops over shared state, the model is a method or a class method proved against a function; where it
computes, the model is that function; the theorems are about the functions, and for each main operation one of them
says what it comes to from its inputs alone, in none of the functions' terms. `Outcomes`, `Sorting`, `Texts` and
`Digits` hold what several parts use.

Some things the code does that its own words do not say came out as theorems:

- A bundle may choose the filler `""`. The rules read a service that gives no id as one whose id is empty, and keeping
  the parts does not, so such a choice can pass every rule and be left naming nothing (`EmptyFillerHappens`).
  `FillersNameServices` gives the exact condition.
- `SharedName::new` accepts names up to 255 bytes (`LongNameAccepted`), while a write stages its file under a name nine
  bytes longer, so a write to a name of 247 bytes or more always fails (`LongNamesNeverWritten`).
- The tree listing ends lines with a line feed and does not escape one. A path that holds a line feed, a sum and two
  spaces can make two trees share a digest, whatever the hash (`LineFeedsConfuse`), and so one pin passes two copies
  (`OnePinTwoTrees`, `TwoTreesHappen`). With no path of that shape in either tree, other line feeds or not, two trees
  share a digest only where two different texts hashed for them share a hash (`DigestNamesOneTree`, `OnePinOneTree`,
  `HeldAsCheckedOut`).
- A shared write sees the file it fills, and its rename names the staging path again: what arrives at the target is
  what that path then stands for (`MovesWhatIsStaged`, `TargetIsMade`, `PlantedLinkLands`).
- `making_room` leaves at most 255 finished, not the 256 its constant names, and only right after a begin; between two
  begins more may finish. `RegisterIsBounded` states the bound that always holds. And work stopped by name may still be
  told as done or failed, where its aborted task writes all the same (`EndedUnlessLate`, `StoppedThenLate`,
  `LateEnding`).

## Model

| member | source | states |
|---|---|---|
| BundleSoundness.SilenceMeansAStack | crates/lemonfiber-bundled/build.rs:57-70 | A schema 2 bundle whose rules find nothing broken always becomes a stack: assembling and then keeping both succeed, the text written parses, and its services are the assembled pins' ids in bundle order, then the installed pins', each pin exactly once and none besides |
| BundleSoundness.Built | crates/lemonfiber-bundled/build.rs:55-76 | The whole build path, with the manifest reader any predicate on text: it is refused as broken exactly where a rule is; at schema 2 it is never refused as unassembled, and what is written, whether the manifest reader then takes it or not, has one service for each pin; what is built is what that reader takes |
| BundleSoundness.Read | crates/lemonfiber-bundle/src/lib.rs:204-223 | The parts are handed on, each pin with its copy, exactly where no rule is broken; otherwise the refusal is not empty |
| BundleChecker.Broken | crates/lemonfiber-bundle/src/rules.rs:53-91 | The list of broken rules is empty exactly when the bundle satisfies every rule, each stated as a condition of its own; at a schema this build does not read it never is |
| RulesKept.SoundMeans | crates/lemonfiber-bundle/src/rules.rs:53-91 | At schema 2 nothing is found broken if and only if every rule is kept, each rule stated of the bundle's own tables, the files of the copies, and the rows of their manifests as they stand |
| RulesRead.WiringRead | crates/lemonfiber-bundle/src/parts.rs:308-382 | A row of wiring is sound if and only if some part has a service of that name, it says why and is of one filler, and it is a link to some part's service, or a choice, for an ask its maker makes once, of a service that provides the capability or speaks a contract of it |
| RulesRead.AskedOnce | crates/lemonfiber-bundle/src/parts.rs:375-382 | An ask is made once by a service if and only if some row of the manifest's asks has that capability, is not of each, and names that service, or names none where it is the manifest's one service |
| RulesRead.CatalogueStands | crates/lemonfiber-bundle/src/parts.rs:285-289 | Where services of several parts are called alike, the last of the last part by id is the one looked up |
| RulesRead.DeclaredReads | crates/lemonfiber-bundle/src/parts.rs:408-425 | What is read of a service's row, key by key |
| RulesRead.FixturesRead | crates/lemonfiber-bundle/src/parts.rs:448-462 | A fixture is a text some table names as one, reached from the manifest by any steps down through tables and lists |
| RulesKept.BelongsRead | crates/lemonfiber-bundle/src/tree.rs:47-54 | A file belongs to the tree if and only if it is a recording, a fixture the manifest names, or a starting file of a service some row calls by that id |
| RulesKept.LightRead | crates/lemonfiber-bundle/src/parts.rs:128-143 | A service is light if and only if the files it starts with are at most 64 and come to at most a mebibyte |
| RulesKept.StageRead | crates/lemonfiber-bundle/src/parts.rs:176-213 | The rule of a pin's stage, from the manifest's own rows |
| Shapes.IdMeans | crates/lemonfiber-bundle/src/rules.rs:221-229 | A text is an id if and only if it opens with a small letter, is of small letters, digits and hyphens, and has no hyphen last and no two together |
| Shapes.ReleaseMeans | crates/lemonfiber-bundle/src/rules.rs:232-240 | A text is a release if and only if it is three numbers as they are written, with dots between |
| Shapes.DayMeans | crates/lemonfiber-bundle/src/parts.rs:153-175 | A text is a day if and only if it is ten characters, digits and hyphens in their places, with a month from 1 to 12 and a day from 1 to 31 |
| Shapes.DigestMeans | crates/lemonfiber-bundle/src/rules.rs:249-260 | A digest is the prefix and 64 digits of hexadecimal in lower case |
| Shapes.CommitMeans | crates/lemonfiber-bundle/src/rules.rs:243-246 | A commit image's tag is its prefix and twelve of them |
| BundleChecker.PinsChecked | crates/lemonfiber-bundle/src/rules.rs:64-74 | Silent exactly when the pins ascend strictly by id and each pin is well formed |
| BundleChecker.CopiesChecked | crates/lemonfiber-bundle/src/rules.rs:75-81 | Silent exactly when every copy is of a pinned plugin |
| BundleChecker.EachPart | crates/lemonfiber-bundle/src/parts.rs:54-63 | Silent exactly when every pin has a sound copy and part; gathers just the parts of the pins that have a manifest, each as its copy declares it |
| BundleChecker.FencesChecked | crates/lemonfiber-bundle/src/parts.rs:65-82 | Silent exactly when no part of a bundle without a fence needs one |
| BundleRules.Pinned | crates/lemonfiber-bundle/src/rules.rs:159-201 | Adds nothing exactly when the pin's id, origin, release, revision, digests and fills are each of their form |
| BundleRules.Filled | crates/lemonfiber-bundle/src/rules.rs:193-200 | Adds nothing exactly when no capability filled is blank or named twice |
| BundleRules.Fenced | crates/lemonfiber-bundle/src/rules.rs:93-116 | Adds nothing exactly when the fence is a schema 2 image published where the fence is, at a release or commit tag and a digest |
| BundleRules.First | crates/lemonfiber-bundle/src/rules.rs:118-157 | Adds nothing exactly when a schema 1 bundle has no stack table and each pin only schema 1's fields and its pinned manifest |
| BundleRules.Manifested | crates/lemonfiber-bundle/src/rules.rs:203-217 | Adds nothing exactly when the manifest hashes to what the pin says and names the pin's plugin |
| BundleRules.Folded | crates/lemonfiber-bundle/src/parts.rs:97-110 | Adds nothing exactly when lower-casing keeps a copy's paths distinct |
| BundleRules.Belonging | crates/lemonfiber-bundle/src/parts.rs:122-127 | Adds nothing exactly when every file of the copy belongs to the plugin's tree |
| BundleRules.Weighed | crates/lemonfiber-bundle/src/parts.rs:128-143 | Adds nothing exactly when no service ships more starting files, or bytes of them, than it may |
| BundleRules.Copied | crates/lemonfiber-bundle/src/parts.rs:84-151 | Adds nothing exactly when the copy is there, link-free, told apart by case, of its pin's manifest and tree and no more; yields the part exactly when there is a manifest |
| BundleRules.StageChecked | crates/lemonfiber-bundle/src/parts.rs:176-213 | Adds nothing exactly when an assembled part has one service of its pin's id speaking nothing, fixtures under its recordings, and an installed part a service that replaces its id |
| BundleRules.Staged | crates/lemonfiber-bundle/src/parts.rs:153-252 | Adds nothing exactly when the part meets its pin's stage, profile, last release and forms, and none of its services leaves its reach or its asks unsaid |
| BundleChecker.Tables | crates/lemonfiber-bundle/src/parts.rs:254-306 | Silent exactly when profiles and forms are ids named once, forms name declared profiles, what is removed is not pinned while what replaces it is, and every wiring row is sound |
| BundleChecker.Wired | crates/lemonfiber-bundle/src/parts.rs:308-373 | Silent exactly when a row is a choice of filler for an ask its maker makes once, of a service that provides or speaks it, or a link by name to a declared service, with a reason |
| BundleChecker.CatalogueHolds | crates/lemonfiber-bundle/src/parts.rs:285-289 | The services looked up by id are exactly those some part declares, each answered by a service that carries that id, though ids may clash across parts |
| Bundles.Fixtured | crates/lemonfiber-bundle/src/parts.rs:448-462 | Finds exactly the fixture values anywhere in a manifest, however deep |
| BundleFillers.CataloguedSpelt | crates/lemonfiber-bundle/src/parts.rs:409-426 | Every service found by a name that is not empty is one some held copy's manifest spells out under that very id, in a table that reads as just that service |
| Bundles.Handed | crates/lemonfiber-bundle/src/lib.rs:211-223 | Each pin is handed on in order with its own copy's manifest and files |
| Assembly.Stack | crates/lemonfiber-bundle/src/assembly.rs:123-169 | The service written is the part's own, moved to its stack fields, with the asks made for it |
| BundleSoundness.ServiceReady | crates/lemonfiber-bundle/src/assembly.rs:95-112 | A part that keeps the rules of its stage is always written: one service, under its pin's id, providing what its manifest's one service provides |
| BundleSoundness.HeldReady | crates/lemonfiber-bundle/src/parts.rs:153-213 | Once the rules of a schema 2 bundle hold, every pin's copy meets all that assembling or keeping it could fail on |
| Assembly.Assemble | crates/lemonfiber-bundle/src/assembly.rs:48-93 | The loop over parts comes to the same text or the same list of problems as the fold that defines it |
| WrittenStack.EveryField | crates/lemonfiber-bundle/src/assembly.rs:95-169 | In the stack written of a sound schema 2 bundle, the service under a pin's id holds under every key just what it should: its pin's profile and last release, no replaced id, what the plugin's table says of it, the dashboard of the first row about it, its own fields otherwise, and the manifest's claims and secrets where it is assembled |
| WrittenStack.TablesCarried | crates/lemonfiber-bundle/src/assembly.rs:80-91 | Beside services and wiring that stack holds the bundle's profiles, forms and removals as they are, the schema and the version given, and nothing else |
| WrittenStack.EveryRowAsked | crates/lemonfiber-bundle/src/assembly.rs:124-168 | Each row of wiring past the bundle's own is an ask of an assembled part's manifest for its service: its maker, its capability, of each where it says so, and no other field |
| StackFields.AssembledFields | crates/lemonfiber-bundle/src/assembly.rs:95-152 | An assembled part is written if and only if its copy parses and has one service, a table with an id, and its pin has both fields; and then every field is as above |
| StackFields.ServiceRefused | crates/lemonfiber-bundle/src/assembly.rs:95-144 | Why a part is not written: the first of six reasons that is so |
| StackFields.ProblemsMean | crates/lemonfiber-bundle/src/assembly.rs:63-79 | Each assembled part that cannot be written is a problem, under its pin's id, and nothing else is |
| KeptParts.StandsIn | crates/lemonfiber-bundle/src/kept.rs:79-142 | The in-place edits of an installed part's table come to its one stand-in, with plugin-only fields gone, minted values dropped and held secrets declared |
| StandInFields.StandInFieldsHold | crates/lemonfiber-bundle/src/kept.rs:79-149 | A stand-in is written if and only if the copy has a service under the pin's id and the pin has both fields. It keeps an environment value if and only if it names no secret or one some row leaves to the operator, declares just the rows that the values kept name, in their order, provides what any service does, each once as first met, speaks nothing, and has every other field as its service and its pin say |
| KeptParts.Redirecting | crates/lemonfiber-bundle/src/kept.rs:56-67 | Rewriting rows in place for one name after another renames just the choices of filler that named the part, and leaves every other field of every row |
| KeptParts.Keep | crates/lemonfiber-bundle/src/kept.rs:31-77 | The loop over installed parts comes to the same text or problems as the fold that defines it |
| BundleFillers.AsksWired | crates/lemonfiber-bundle/src/assembly.rs:57-75 | After assembling any parts, the bundle's own wiring rows are an unchanged prefix, every ask of every service written is covered by a row of its asker and capability, and what is appended is asks only, none repeating a row before it |
| BundleFillers.EveryAskWired | crates/lemonfiber-bundle/src/assembly.rs:154-168 | Every ask a part's manifest makes of a capability for its service has such a row in the stack |
| BundleFillers.FillersNameServices | crates/lemonfiber-bundle/src/kept.rs:44-76 | When the rules hold, the filler a choice ends with, however many parts rename it, names a service of the written stack if and only if the bundle named one at all or an installed copy spells an empty id |
| BundleFillers.EveryFillerNamesAService | crates/lemonfiber-bundle/src/parts.rs:335-363 | So where no choice is of the empty name, every filler left in the stack, asks' rows included, names one of its services |
| EmptyFiller.EmptyFillerNamesNothing | crates/lemonfiber-bundle/src/parts.rs:349-357 | The family where it fails: a bundle with nothing broken whose choice of the empty name, read off a service that gives no id, is left in the stack naming nothing |
| EmptyFiller.EmptyFillerHappens | crates/lemonfiber-bundle/src/parts.rs:349-357 | And it happens: for any plugin id, capability and reason, one manifest and one bundle file, written out, break no rule and come to such a stack, whatever the hash |
| BundleProviding.ChosenFillerProvides | crates/lemonfiber-bundle/src/kept.rs:90-102 | With service ids distinct across parts, the service a choice ends with provides the capability if and only if some service of the part chosen does, so always where the chosen service provided rather than only spoke it |
| BundleProviding.PartInStack | crates/lemonfiber-bundle/src/kept.rs:82-102 | Each part stands in the stack under its pin's id and provides just what any of its services does |
| Trees.Found | crates/lemonfiber-bundle/src/copies.rs:93-119 | The worklist walk ends, fails exactly where a directory cannot be read, and otherwise reports every file and every link as often as the tree holds it, by its path, following no link; on a sound tree nothing is reported twice |
| Trees.WalkCounts | crates/lemonfiber-bundle/src/copies.rs:98-117 | What a walk with work pending still reports counts each path exactly as the recursive definition does |
| Trees.Walked | crates/lemonfiber-adapters/src/occupancy.rs:90-99 | However soon the reader leaves, what it was sent is a prefix of the whole walk and names nothing twice; a reader that stays is sent every occupant exactly as often as the tree holds it, unreadable directories giving nothing |
| Trees.OccupantsMean | crates/lemonfiber-adapters/src/occupancy.rs:103-119 | A walk of occupants reports a path if and only if a file or a link stands there, reached by directories that all open; a walk of links, if and only if a link does |
| Trees.HeldOnce | crates/lemonfiber-bundle/src/copies.rs:98-117 | With names distinct in each directory and none empty or with a slash, no path is held twice, at any depth |
| Trees.SentOn | crates/lemonfiber-adapters/src/occupancy.rs:103-119 | One directory's entries are sent or put aside so that what was sent and what is pending make the whole walk; it stops only when the reader is gone |
| TreeDigest.Digested | crates/lemonfiber-bundle/src/copies.rs:127-137 | Hashing a file piece by piece over a reused buffer gives the hash of the whole |
| TreeDigest.Listed | crates/lemonfiber-bundle/src/tree.rs:35-43 | The listing written in a loop is one line per file in the order of their paths, whatever order they were put in |
| TreeDigest.DigestReads | crates/lemonfiber-bundle/src/tree.rs:25-43 | A digest is the prefix and the hash of one line for each path in order: the hash of what it holds, two spaces, the path, a line feed |
| Sorting.BeforeMeans | crates/lemonfiber-bundle/src/tree.rs:25-43 | One path comes before another if and only if, at the first place where they part, it ends or has the smaller character |
| TreeDigest.DigestNamesOneTree | crates/lemonfiber-bundle/src/tree.rs:25-43 | Where no path holds a line feed, then 64 hexadecimal digits, then two spaces, equal digests mean the same manifest and the same files, unless the two listings, the two manifests, or the two files at some one path are different texts with one hash |
| TreeDigest.LinesTellApart | crates/lemonfiber-bundle/src/tree.rs:38-41 | Under that condition two printed listings that are one text have the same paths in the same order, with the same sums |
| TreeDigest.LineFeedsConfuse | crates/lemonfiber-bundle/src/tree.rs:39-41 | Where a path does hold the sum of some contents between a line feed and two spaces it fails: any tree with a path split so into two names it does not have, that sort next to it, shares its digest, whatever the hash, with the tree that has those two files instead |
| Checkout.DigestOf | crates/lemonfiber-bundle/src/tree.rs:68-122 | Digesting a checkout succeeds exactly when every directory and fixture of it is inside, link-free and can be read, each file included, and then comes to the digest over exactly the files that belong, overlaps counted once |
| PluginTrees.Of | crates/lemonfiber-bundle/src/tree.rs:66-122 | The whole of it, for the services and the fixtures the manifest itself declares |
| PluginTrees.CheckedOutIsSound | crates/lemonfiber-bundle/src/parts.rs:122-149 | Pinned by the digest so taken of a checkout, a copy of the files that belong keeps the rules exactly where its manifest, its tables, its weight and the case of its paths do: the digest and the paths are never at fault |
| PluginTrees.HeldAsCheckedOut | crates/lemonfiber-bundle/src/parts.rs:144-149 | And any copy the rules pass for that pin, with no path of that shape, holds just the manifest and the files checked out, unless texts hashed for the two clash as above |
| PluginTrees.OnePinOneTree | crates/lemonfiber-bundle/src/parts.rs:144-149 | Two copies the rules pass for one pin of a tree, with no path of that shape, are the same manifest and files, unless so |
| PluginTrees.OnePinTwoTrees | crates/lemonfiber-bundle/src/parts.rs:144-149 | With such a path it fails: a sound copy stays sound with the two files in place of the one if and only if those belong and the weight and case rules hold of the new copy |
| PluginTrees.TwoTreesHappen | crates/lemonfiber-bundle/src/parts.rs:144-149 | And it happens: for any hash, any contents and any manifest sound for its pin that declares no stack table, one pin has two sound copies with different recordings, where lower-casing leaves their paths alone |
| Checkout.SummedDirectory | crates/lemonfiber-bundle/src/tree.rs:75-97 | Sums exactly the files beneath one directory, each to its true hash, or refuses exactly where something beneath it is a link or does not open, or its path leads outside or through a link |
| Checkout.SummedFixture | crates/lemonfiber-bundle/src/tree.rs:98-114 | Sums a fixture that is there, passes over one that is not, and refuses exactly where its path leads outside or through a link, or the file does not open |
| Lookups.AllFilesLookUp | crates/lemonfiber-bundle/src/tree.rs:84-96 | A path is one of the checkout's files exactly when looking it up name by name reaches a file |
| Lookups.InsideMeans | crates/lemonfiber-bundle/src/tree.rs:126-133 | A path goes down into the checkout if and only if no name in it, from slash to slash, is empty, one dot or two |
| Lookups.LinkedMeans | crates/lemonfiber-bundle/src/copies.rs:163-175 | Names pass a link if and only if following some of them, one after another, comes to one |
| ReleaseWhole.FoldIsTheRecord | scripts/a_release_written_once.py:183-211 | Over every history of writes in which nothing said is reworded and releases and withdrawals only grow, right after a write that adds a file the fold over the immutable files is the record last written: every release, requirement, page and list of releases that shipped it |
| ReleaseFold.FoldMarksAsRecord | scripts/a_release_written_once.py:178-211 | With rewording allowed, of citations too, that fold still holds the record's releases, each once, marks each withdrawn exactly when the record does, and so each requirement its own releases cite, which are all it holds |
| ReleaseFold.FoldMarksAsSettled | scripts/a_release_written_once.py:132-211 | After any growing history, whatever the last write did, the fold marks as the last record whose write added a file does |
| ReleaseFold.FoldHoldsTheCited | scripts/a_release_written_once.py:198-211 | Where no release comes to cite otherwise than it did, the requirements the fold holds are exactly those that record cites |
| ReleaseFold.FilesNeverChange | scripts/a_release_written_once.py:168-175 | No later write changes or removes a file already there |
| ReleaseFold.WithdrawalsSaidOnce | scripts/a_release_written_once.py:132-165 | No file repeats a withdrawal another file carries, or one the release's own file already shows; and each listed requirement is one a kept file cites |
| ReleaseFold.FoldTold | scripts/a_release_written_once.py:198-199 | The fold has a requirement exactly where some file tells one, as the newest file that does has it |
| ReleaseFold.FoldWithdraws | scripts/a_release_written_once.py:194-196 | The fold takes a release back exactly where some file does, for a reason that file gives |
| ReleaseFold.FoldGone | scripts/a_release_written_once.py:197-197 | The fold counts a requirement as gone exactly where some file lists it |
| ReleaseAgreement.HistoryAgrees | scripts/a_release_written_once.py:95-165 | The invariant of every history: one file for each release, and the files together say of each release and requirement what the settled record says |
| ReleaseHistory.UnwrittenMeans | scripts/a_release_written_once.py:132-165 | What a write adds: a file for each release not there, telling its citations as the record does, only the newest of them carrying what came late, and that exactly the withdrawals no file records |
| ReleaseRecord.Cited | scripts/a_release_written_once.py:110-118 | The three nested loops return an id if and only if some entry of some group has it among its requirements, none twice, and of two ids first the one with the earlier first place in the order of groups, entries and positions |
| ReleaseRecord.OnceInOrder | scripts/a_release_written_once.py:110-118 | No requirement is gathered twice, and they keep the order in which they first appear |
| ReleaseRecord.RecordedWithdrawn | scripts/a_release_written_once.py:95-107 | One pass over the files finds exactly the releases and requirements they already say are withdrawn |
| ReleaseRecord.Unwrite | scripts/a_release_written_once.py:132-165 | Fails exactly where a release to be written cites what the record does not hold, and otherwise yields the files to add |
| ReleaseRecord.Directory.Write | scripts/a_release_written_once.py:168-175 | Writes, oldest first, exactly the files the directory lacks and touches none it holds; on a failure it writes nothing |
| ReleaseFiles.WriteMeans | scripts/a_release_written_once.py:132-175 | What the directory then holds, file by file: every file that was there, and for each release that had none, its release, what the record says of each requirement one of its entries has, and in the newest of them only, each withdrawal no file says yet |
| ReleaseFiles.OlderMeans | scripts/a_release_written_once.py:73-75 | Versions are in the order of the numbers they are, in any base their parts do not reach |
| ReleaseRecord.Assemble | scripts/a_release_written_once.py:183-211 | Gathering, listing and marking in three passes over shared dictionaries comes to the folded record |
| ReleaseFiles.FoldMeans | scripts/a_release_written_once.py:178-211 | What the fold is, entry by entry: releases newest first, each taken back for its own file's reason or else the oldest file's that carries one; each requirement as the newest file telling of it says, or gone where any file lists it; shipped in just the releases whose entries have it |
| JsonText.FileRoundTrip | scripts/a_release_written_once.py:47-70 | For every value, however nested, a file read back is the value it was written from, and written again is the same text |
| JsonText.ValueRead | scripts/a_release_written_once.py:52-65 | At every depth and whatever follows it, a value is read back whole from what was written of it |
| JsonText.DumpsTellApart | scripts/a_release_written_once.py:52-65 | Two values written alike, at whatever depths, are one value |
| JsonText.OneLineWhenFlat | scripts/a_release_written_once.py:55-62 | A value is written on one line exactly when it nests no container in another |
| JsonLayout.ListLaid | scripts/a_release_written_once.py:61-64 | A list is its members with a comma and a space between where none nests, and otherwise one a line, two spaces further in than its brackets |
| JsonLayout.ObjectLaid | scripts/a_release_written_once.py:55-60 | So is an object, each member its key in quotes, a colon, a space and its value |
| JsonLayout.QuotedMeans | scripts/a_release_written_once.py:52-65 | A text is written character by character between quotes, each as itself unless it is a quote, a backslash or a control, and then as its one escape |
| JsonLayout.NumberMeans | scripts/a_release_written_once.py:52-65 | The numbers that may stand in a file are those of section 6 of RFC 8259 |
| JsonLayout.ProperMeans | scripts/a_release_written_once.py:52-65 | A value may be written and read back if and only if no object in it, at any depth, has a key twice |
| Changelog.FoldedConserves | scripts/the_record_a_release_leaves.py:278-306 | Read oldest to newest, the folded sections hold exactly the commits given, none lost, moved or doubled |
| Changelog.FoldedLeavesNone | scripts/the_record_a_release_leaves.py:293-296 | No pre-release section is left |
| Changelog.FoldedSections | scripts/the_record_a_release_leaves.py:297-305 | Every other section keeps its place; one is made only where a pre-release came first |
| ChangelogReads.SectionTakes | scripts/the_record_a_release_leaves.py:292-306 | A section that stays, at its place among those that do, has the commits of the pre-releases that follow it before its own, oldest first |
| ChangelogReads.AheadMeans | scripts/the_record_a_release_leaves.py:77-77 | A tag is a pre-release's if and only if it is a `v`, three numerals with dots between, a dash, and anything |
| Changelog.Fold | scripts/the_record_a_release_leaves.py:292-306 | The loop that merges into the section last kept comes to the folded sections |
| Changelog.GroupAll | scripts/the_record_a_release_leaves.py:241-255 | Gathering by title and listing by order comes to the groups, each with what belongs under it |
| Changelog.EveryCommitPlaced | scripts/the_record_a_release_leaves.py:244-255 | Every commit that says anything is an entry of the one group its citations decide, at its turn, and no two groups share a title |
| ChangelogReads.GroupsMean | scripts/the_record_a_release_leaves.py:233-255 | The groups are those of the four titles with any entry, in the titles' order, and each commit that says anything is in the one its citations and its kind name, as its sentence, its review and its citations, after as many entries as came before it |
| Changelog.GroupedConserves | scripts/the_record_a_release_leaves.py:241-255 | As many entries are listed as commits say anything |
| Changelog.UserFacing | scripts/the_record_a_release_leaves.py:335-335 | A release has a group an operator would notice exactly when some entry cites a requirement under an offered kind |
| JobRuns.RunsFit | crates/lemonfiber-api/src/jobs.rs:284-403 | The invariant of every interleaving of lock, spawn, record, release, ending, writing, abort, question, release by name and sweep |
| JobPromises.StartOverwritesNothing | crates/lemonfiber-api/src/jobs.rs:284-320 | When a start is recorded its name is not held and its task has written nothing, even where it is already over; what is recorded is the start, running, under its lease |
| JobPromises.EndingFindsItsEntry | crates/lemonfiber-api/src/jobs.rs:293-298 | Every task that runs to its end finds its own entry, running, and leaves there what it came to |
| JobPromises.NothingGoesOnUnseen | crates/lemonfiber-api/src/jobs.rs:300-319 | Work that is going on and was not aborted is always held as running, under its own action |
| JobPromises.RunningUntilEnded | crates/lemonfiber-api/src/jobs.rs:236-249 | Over any continuation of a run, running work goes on being held and running until its own ending, its release by name, or a sweep of work leased while asked that nobody asked about; nothing begun beside it drops it |
| JobPromises.SettledForGood | crates/lemonfiber-api/src/jobs.rs:335-344 | Once work is done or has failed, that is what is told, over any continuation of the run, until its entry is dropped |
| JobPromises.EndedUnlessLate | crates/lemonfiber-api/src/jobs.rs:395-403 | Work ended on purpose is told otherwise only by the aborted task's own late writing, and then by its own outcome |
| JobPromises.StoppedThenLate | crates/lemonfiber-api/src/jobs.rs:340-403 | And it can be: whenever a task is over and has yet to write, stopping its work answers that it ended, and the writing that follows replaces that by what it came to |
| JobPromises.LateEnding | crates/lemonfiber-api/src/jobs.rs:284-403 | From an empty register a run of seven steps does it, for every outcome |
| JobPromises.CountsAreQuestions | crates/lemonfiber-api/src/jobs.rs:311-332 | Over every run an entry's two counts differ by the questions about it since the last sweep, its start being one |
| JobPromises.SweepRule | crates/lemonfiber-api/src/jobs.rs:360-376 | A sweep ends running work leased while asked exactly when nobody asked since the sweep before, leaves held work running, and forgets finished work by the same rule |
| JobPromises.SweepAborts | crates/lemonfiber-api/src/jobs.rs:369-372 | A sweep aborts exactly the tasks of the work it ends |
| JobPromises.BeginLeavesRoom | crates/lemonfiber-api/src/jobs.rs:233-250 | Right after a begin at most one less than the ceiling is finished |
| JobPromises.RegisterIsBounded | crates/lemonfiber-api/src/jobs.rs:233-250 | In every reachable state the register holds at most one less than its ceiling and what was running when work was last begun |
| JobPromises.LetGoBeganFirst | crates/lemonfiber-api/src/jobs.rs:236-249 | What a begin lets go was finished, and began strictly before all finished work still held |
| JobPromises.TurnsApart | crates/lemonfiber-api/src/jobs.rs:301-302 | Every piece of work has a turn of its own, none past the count begun |
| Jobs.MakingRoomLetsGoOldest | crates/lemonfiber-api/src/jobs.rs:236-249 | Making room removes finished work only, of that the earliest begun, and no more than it takes |
| Jobs.Jobs.MakingRoom | crates/lemonfiber-api/src/jobs.rs:236-250 | Sorting and removing in place leaves just what making room defines |
| Jobs.Jobs.Begin | crates/lemonfiber-api/src/jobs.rs:300-319 | The start is written, running, under its lease and the next turn; every running entry stays, any other entry kept is as it was, and besides the start at most one less than the ceiling is finished |
| Jobs.Jobs.About | crates/lemonfiber-api/src/jobs.rs:328-333 | Answers with the work held, none where none is; that entry's count goes up by one and nothing else about it, or any other entry, or the count begun, changes |
| Jobs.Jobs.Stop | crates/lemonfiber-api/src/jobs.rs:340-344 | Running work is then ended, its lease, counts and turn kept and exactly its task aborted; work already over, every other entry, and the count begun stay as they are, and nothing is then aborted |
| Jobs.Jobs.Finish | crates/lemonfiber-api/src/jobs.rs:294-297 | A task writes its outcome where its name is still held, keeping that entry's lease, counts and turn; where it is not held nothing comes back, and every other entry stays |
| Jobs.Jobs.Sweep | crates/lemonfiber-api/src/jobs.rs:360-376 | Looking at entries one by one in any order comes to the sweep, and counts exactly the running work let go |
| SharedRuns.WriterTouchesOnlyItsOwn | crates/lemonfiber-adapter-kit/src/shared.rs:202-256 | In every interleaving with another process doing anything, each step of a write changes the bytes or mode of no inode but the one its own exclusive create made, which was not there when it began, and no name but the target's and its staging one |
| SharedRuns.WhatStoodIsKept | crates/lemonfiber-adapter-kit/src/shared.rs:202-256 | So whatever stood before the write, and nobody else changed, is as it was at every moment of it |
| SharedRuns.MadeIsNew | crates/lemonfiber-adapter-kit/src/shared.rs:220-226 | What the write creates was in no disk before it |
| SharedRuns.SeenAlone | crates/lemonfiber-adapter-kit/src/shared.rs:238-256 | In every interleaving, no byte goes into a file that was not seen through its handle, at a moment of the run, to be plain with one name |
| SharedRuns.TargetIsMade | crates/lemonfiber-adapter-kit/src/shared.rs:212-236 | What the rename leaves at the target is the file written, wherever no other process changed what the staging name stood for since the file was made |
| SharedRuns.PlantedLinkLands | crates/lemonfiber-adapter-kit/src/shared.rs:225-236 | Where another process may do that, it fails: from every run about to rename onto no directory, a link put in the file's place under the staging name ends as the target, and the write goes on as if it were its own |
| SharedSafety.OldWholeOrNewWhole | crates/lemonfiber-adapter-kit/src/shared.rs:209-245 | With one writer, stopped after any step and whatever failed, the target holds exactly what it held, or from the rename on the new contents whole, flushed and at the kept mode; a failed write leaves it as it was |
| SharedSafety.TargetMode | crates/lemonfiber-adapter-kit/src/shared.rs:219-241 | A finished write's target has no bit outside octal 644, and of those just the ones asked for |
| SharedSafety.MadeMode | crates/lemonfiber-adapter-kit/src/shared.rs:219-241 | At every step from its creation on, whatever the umask and whatever failed, the file made has no bit that was not asked for, nor one outside octal 644 |
| SharedSafety.NothingElseChanges | crates/lemonfiber-adapter-kit/src/shared.rs:209-236 | At every step nothing else stored changes, nor any other name, and a finished write leaves no staging name |
| SharedSafety.RanReaches | crates/lemonfiber-adapter-kit/src/shared.rs:202-245 | What the disk is before each step of a write, exactly |
| SharedCompletion.QuietWriteFinishes | crates/lemonfiber-adapter-kit/src/shared.rs:212-235 | Where no step fails, a write goes through if and only if neither its target nor its staging name is a directory and the staging name is no longer than a name may be: any other stale staging name is cleared |
| SharedCompletion.StagingTaken | crates/lemonfiber-adapter-kit/src/shared.rs:212-226 | How it is refused otherwise: named as linked for a directory at the staging name, and as too long for one that is |
| SharedCompletion.LongNamesNeverWritten | crates/lemonfiber-adapter-kit/src/shared.rs:83-95 | No write to a name within nine bytes of the longest ever goes through or changes anything, whatever fails and whenever it stops |
| SharedCompletion.LongNameAccepted | crates/lemonfiber-adapter-kit/src/shared.rs:83-95 | For each of those lengths there is a name accepted as a target |
| SharedCompletion.RanSane | crates/lemonfiber-adapter-kit/src/shared.rs:202-256 | A write stopped after any step, whatever failed, leaves a disk as sound as the one it met |
| SharedCompletion.StopNeverObstructs | crates/lemonfiber-adapter-kit/src/shared.rs:212-235 | What stands in the way of any later write in that directory is just what stood in its way before |
| SharedCompletion.NextWriteFinishes | crates/lemonfiber-adapter-kit/src/shared.rs:212-235 | So a write after one stopped anywhere, itself meeting no failure, ends, and goes through if and only if it was unobstructed before the stopped one began |
| SharedCompletion.ReadWhatWasWritten | crates/lemonfiber-adapter-kit/src/shared.rs:262-288 | What was written is what is read, up to the largest read; a larger one is refused as that |
| SharedFiles.StagingApart | crates/lemonfiber-adapter-kit/src/shared.rs:83-95 | No staging name is a target's, and no two targets share one |
| SharedFiles.TargetMeans | crates/lemonfiber-adapter-kit/src/shared.rs:83-95 | A name is a target's if and only if it is one plain name of at most 255 bytes that does not end as a staging name does |
| SharedFiles.BeneathLeads | crates/lemonfiber-adapter-kit/src/shared.rs:177-198 | The directory opened is the one real directories lead to, no link among them; absent only where the next is, and refused by name only where something else stands there |
| SharedFiles.FileSystem.Open | crates/lemonfiber-adapter-kit/src/shared.rs:177-198 | The loop that replaces the directory comes to that directory or that refusal |
| SharedFiles.FileSystem.Write | crates/lemonfiber-adapter-kit/src/shared.rs:209-236 | The sequence of calls, with any of them failing, ends where the stepwise write ends, with its disk and its answer |
| SharedFiles.FileSystem.Fill | crates/lemonfiber-adapter-kit/src/shared.rs:239-245 | Checking, setting the mode, writing all and flushing come to the stepwise filling |
| SharedFiles.FileSystem.Written | crates/lemonfiber-adapter-kit/src/shared.rs:202-236 | A directory refused or absent is an error with the disk untouched; otherwise the write in it |
| SharedFiles.FileSystem.Read | crates/lemonfiber-adapter-kit/src/shared.rs:262-288 | A directory refused or absent is answered as that; otherwise the calls, any of them failing, end where the stepwise read ends: a look by name, an opening, a second look through the handle, and the bytes |
| SharedReads.AnswersOfOneSeen | crates/lemonfiber-adapter-kit/src/shared.rs:262-288 | In every interleaving with another process doing anything, bytes answered are all of one file, at one moment, that was seen through the handle earlier to be plain with one name, and no more than the largest read |
| SharedReads.QuietReadAnswers | crates/lemonfiber-adapter-kit/src/shared.rs:262-288 | With nothing else at work and no call failing, the stepwise read answers with all of a plain file with one name, nothing where nothing is there, and a refusal for the rest |
| Disks.FreshHasOneName | crates/lemonfiber-adapter-kit/src/shared.rs:220-226 | An inode just created has the one name it was created under |
| Placeholders.ReadOfWritten | crates/lemonfiber-contract/src/conformance.rs:77-128 | A placeholder is read back from what is written of it if and only if it is well formed |
| Placeholders.ReadIsWritten | crates/lemonfiber-contract/src/conformance.rs:91-128 | Whatever text is read as a placeholder is exactly what that placeholder writes, and it is well formed |
| Placeholders.WrittenMeans | crates/lemonfiber-contract/src/conformance.rs:77-88 | What each placeholder is written as, letter by letter |
| Placeholders.U32Means | crates/lemonfiber-contract/src/conformance.rs:91-128 | A numeral is a major if and only if it is below 2 to the 32nd, with or without one plus |
| Placeholders.CaseMeans | crates/lemonfiber-contract/src/conformance.rs:91-128 | A case is a capability, a major and a name, cut at the first at sign and the first slash |
| Placeholders.AnswerRoundTrips | crates/lemonfiber-contract/src/conformance.rs:69-74 | The placeholder built for a capability's answer is read back as itself where its parts hold none of the marks |
| ConformanceReads.AnswerIsACase | crates/lemonfiber-contract/src/conformance.rs:69-74 | The answer such a placeholder asks for is that of a case the capability has, for an operation that answers and is bound to no kind of media |
| ContractGrowth.GrowthIsCompatible | crates/lemonfiber-conformance/src/judging.rs:126-148 | Appending unrecorded operations above the recorded minor leaves every verdict there was unchanged and passes every case they add |
| ContractGrowth.PassesThroughMinors | crates/lemonfiber-conformance/src/judging.rs:126-148 | A plugin whose every case passes goes on passing through any number of such minors |
| ContractGrowth.UnrecordedPasses | crates/lemonfiber-conformance/src/judging.rs:177-184 | An unrecorded case passes if and only if it was added above every minor recorded beside it |
| ContractGrowth.RecordedMinorMeans | crates/lemonfiber-conformance/src/judging.rs:177-184 | The recorded minor is the highest recorded, and the first where none is |
| ContractGrowth.OwedGrows | crates/lemonfiber-conformance/src/judging.rs:103-123 | Growing a contract takes away no recording owed, and adds just the new cases' |
| ContractGrowth.CasesGrow | crates/lemonfiber-contract/src/conformance.rs:183-197 | A grown capability has its cases in their order and the new ones after them |
| Conformance.EveryOperationAsked | crates/lemonfiber-contract/src/conformance.rs:213-240 | Every operation is asked under the key, for each kind of media it is bound to where it answers, and held to its refusal where it must refuse |
| ConformanceReads.CaseMeans | crates/lemonfiber-contract/src/conformance.rs:183-240 | A case is of a capability if and only if it is the one without the key, of its first operation, or one under the key of an operation, with the name, the body and the holding that operation gives it |
| Conformance.OneWithoutTheKey | crates/lemonfiber-contract/src/conformance.rs:184-197 | Exactly one case, the first, is asked without the key, and held to being refused |
| ContractGrowth.AllPassWhenAccounted | crates/lemonfiber-conformance/src/judging.rs:126-148 | A plugin passes throughout if and only if each case it owes is accounted for: recorded from its pinned image by the very request, with an answer the case allows, or not recorded and added above every minor recorded beside it |
| Conformance.OweAll | crates/lemonfiber-conformance/src/judging.rs:103-123 | The nested loops come to what is owed: for each service and each contract it speaks, that contract's cases, in order |
| ConformanceReads.OwedMeans | crates/lemonfiber-conformance/src/judging.rs:103-123 | A recording is owed if and only if some service speaks its contract, that is published, its case is of it and fits the media filed, and it stands under the contract's and the case's names |
| ConformanceReads.OwedInOrder | crates/lemonfiber-conformance/src/judging.rs:103-123 | What fewer speakers owe comes first, in the same order |
| ConformanceReads.VerdictMeans | crates/lemonfiber-conformance/src/judging.rs:187-240 | What a recording comes to: nothing proven, with the reason, where it is of no image, another, a run or another request; and otherwise passed if and only if its answer is one the case allows |
| ConformanceReads.JudgeMeans | crates/lemonfiber-conformance/src/judging.rs:126-148 | What is judged where a recording stands, where it cannot be read, and where there is none |
| Conformance.JudgeAll | crates/lemonfiber-conformance/src/judging.rs:126-148 | The loop judges each recording owed, in order, against all that are owed |

## Left out

- TOML, JSON numbers, SHA-256, UTF-8 and case folding are abstract: a `World` says what text parses to and how a table prints, with the one law that printing is undone by parsing; the hash is any function to hexadecimal of its width, and where it matters the two texts that clash are named; a number in a release file is kept as its digits.
- Bytes and text are both sequences of characters: a file's bytes are modelled as text where only hashing, counting and equality are asked of them.
- The wording of refusals: each is a tag for its rule and where it was broken; sorting and deduplicating them, and the error types of the libraries, are not modelled.
- Bundle files read from disk (`copies::read`, `unpinned`, serde's own refusals): the model starts from the bundle and the copies read; that the rows of the bundle file are the wiring read from it is the hypothesis `Reads`.
- Fields of a pin, a service or a release that nothing modelled reads are dropped, or carried as text.
- BundleRules.Pinned: states when nothing is added, not which fault is added for which field; the other rules are stated alike, since only emptiness is read downstream.
- BundleProviding.ChosenFillerProvides: takes service ids distinct across parts as a hypothesis, which no rule enforces.
- TreeDigest.DigestNamesOneTree: its condition is on the paths alone, so it also shuts out a path whose 64 digits are the sum of nothing in either tree; `LineFeedsConfuse` takes the two names the path splits into to sort beside it.
- Checkout.DigestOf: which refusals are listed where there are several is not stated; a file opens and is read whole or does not open; a disk that changes while it is walked is not modelled.
- Trees.Walked: an entry with no metadata is not in the tree to begin with, and sizes and identities are not carried.
- Digits are the ten of ASCII, in versions, tags and majors.
- Versions are three numbers, so `01.0.0` and `1.0.0` are not told apart; refusing a badly named file in the directory, and printing it from JSON into a document, are not modelled.
- ReleaseFold.FoldMarksAsRecord: takes releases, requirements and withdrawals to grow only, from one record to the next; citations may differ.
- ReleaseFold.FoldHoldsTheCited: takes what a release cites to stay, since a file written once keeps the citations of its day.
- ReleaseWhole.FoldIsTheRecord: takes the record newest first and its words unchanged between writes, which a backport or a renamed feature would break; `FoldMarksAsRecord` does not.
- The text of a commit: its sentence, its citations and its group are given as `summary`, `cited` and the ordering pattern read them. What `release` reads from the manifests, and tags that are neither releases nor pre-releases, are not modelled.
- JsonText.FileRoundTrip: escapes for surrogates are refused by the reader, since the writer writes none; numbers that are not finite are not values.
- Real time and the scheduler: a lease is the time between two sweeps, and what happens next is any step that can. Counters do not saturate. Names are minted once.
- JobPromises.EndedUnlessLate: aborting is taken to stop nothing a task may yet do, so a task may come to its end and write after it, as one past its last await can.
- BundleSoundness.Built: what the manifest reader takes is any predicate on text, so nothing is said of when a stack is taken.
- Two writers of one target name share one staging name and nothing orders them: what the target then holds is not claimed; `WriterTouchesOnlyItsOwn` holds for each of them.
- SharedSafety.OldWholeOrNewWhole: a stop keeps what was flushed and the names as the calls left them; a file system that loses or reorders a rename is not modelled, nor whether the directory's own flush succeeded.
- SharedFiles.FileSystem.Read: the bytes are taken in one step; resolving the first path, and removing a directory held open, are not modelled. An inode number is never used again.
- SharedRuns.TargetIsMade: one way only; `MovesWhatIsStaged` gives both, in terms of the staging name at the rename.
- What an operation's contract says against an answer is any function of the operation, status and body; schemas and the replayed client are not modelled, and a failed verdict's faults are kept only as far as they pass or fail.
- The adapters for the network, containers, processes and registries, the HTTP surface, and the actions behind it are not part of this model: they add flat tables or state held elsewhere.
