# deb-s3: a verified model

`deb-s3` keeps an APT repository in an object store that has no transactions. Every command reads the
`Release` and `Packages` objects of a suite, edits them in memory, and writes them back one object at a time.
This project models that program and proves what holds of the store at every moment: between the calls of one
run, after a run that was cut off, and while several publishers run side by side.

The parts, by file:

| files | what they model |
|---|---|
| `Text`, `Numbers`, `Lists`, `Order`, `Paths`, `Digests` | Go's string, number, sorting and path functions, with the facts the rest needs |
| `Control`, `Dependency`, `Package`, `Manifest`, `Release` | the parsers and printers of control paragraphs, dependencies, package records, `Packages` and `Release`, and that they undo each other |
| `Edits` | the manifest in memory, compacted in place by `Add` and `DeletePackage` |
| `Storage`, `Keys`, `Calls` | the prefixed in-memory store as a refinement of a plain map; typed names for the objects of a suite; store calls as steps |
| `Rereading` | what of a package survives its own record when its values are not in canonical form |
| `World`, `Instance` | what publishing relies on in the codecs, stated as laws, and the proof that the real codecs obey them |
| `Publication`, `Publisher` | the store calls a publish makes, as a plan and as the imperative program that is proved to follow it |
| `Concurrent` | any number of unlocked publishers interleaved call by call, cleans in between, and clients that hold an old `Release` |
| `History`, `Signatures`, `Consistency` | histories of runs that stop anywhere: referential integrity, signatures, and entries that describe their indexes |
| `Commands`, `Commander`, `Upload`, `Uploader` | copy, delete, verify and upload: what they publish, and the programs |
| `Adding`, `Republished`, `CommandResults`, `VerifyResults`, `UploadResults` | what these commands leave in the store and when they are refused, said of the stored packages and of the caller's options alone |
| `Successes` | when these commands succeed, exactly |
| `Clients`, `Records` | what an APT client reads of a Release by its headings, and of a package record by its field names |
| `Maintenance`, `Collection` | clean, on the memory store and as a run of store calls |
| `CommandHistory` | histories of all five commands, each given by the contract of its program and stopped anywhere |
| `Limits`, `StrayPaths` | counterexamples: what goes wrong outside the conditions below |
| `Lock`, `Handles` | the lock protocol as a transition system, its attempt loop and its backoff; one attempt and the handle on the memory store |
| `Archive`, `PackageFile`, `Inspection` | the `ar` stream reader and the inspection of a package file |
| `Guarantees` | the main results for the real codecs |

Where the source works by changing things step by step, so does the model: paragraphs, manifests, releases, the
memory store, the bucket and the archive reader are classes, loops are loops, and each is proved against a
function that later lemmas reason about. The order in which Go visits a map is left open (`MemoryStore.List`,
`MergeFiles`, `SpreadEach` take the keys in any order).

## Conditions

These are what the code needs. They are stated as preconditions, and where a condition is exact the model proves
both directions.

- By-hash publishing is on throughout (`Concurrent.Sound`), and the Releases found at the start are covered by by-hash
  objects (`Concurrent.Stocked`), as they are when there are none (`Concurrent.EmptyIsStocked`). A run that switches
  it on writes by-hash objects only for the manifests it touches; `Limits.ByHashMidwayLeavesGap` is the case that goes
  wrong.
- Components and architectures are single clean path segments (`Keys.CleanSuite`, `Publication.SuiteName`).
- A value survives writing and reading exactly when it is `Control.Canonical`: no lone-dot line, no trailing empty
  line, no indented continuation line. Publishing does not need that: `Rereading` follows any value that can be written.
- A version survives exactly when the part after its epoch does not start with its only dash
  (`Package.VersionRoundTrip`).
- Extra fields may repeat template fields: what is read back is the extra field's value (`Rereading.ExtraFieldWins`).
  For an upload no extra field may lead to another `Filename` or to a `Version` that cannot be read, now or after more
  prefixes such as `XB-` were taken off its name, nor may its name run out of characters (`Rereading.FitExtra`). A
  record keeps its path exactly when no extra field names another one (`Rereading.PathKept`), and
  `StrayPaths.PackageFileGoesAstray` is what an upload leaves otherwise; `StrayPaths.LaterIndexGoesAstray` is the case
  of two prefixes, where the second index goes wrong. Byte stability of a record asks for more: names
  that are distinct, not the template's, and that `normalizeExtraFieldName` leaves alone.
- A Release that is found with a plain index and not its compressed form is not completed unless a run publishes that
  suite: `Publication.BothEntriesListed` is exact, and `Limits.PlainEntryStaysAlone` is the case. No command writes such
  a Release (`CommandHistory.BothIndexesListed`).
- A record is byte-stable exactly when not every dependency is an inequality (`Package.DependsVanish`).
- An entry settles after one print and parse exactly when it is no `~>` range or its name has no upper-case letter
  (`Dependency.SteadyEntrySettles`). `(~> Foo 1.2)` does not settle (`Dependency.FooDoesNotSettle`).
- `JoinKey` keeps an accepted key below the prefix exactly when the key asks for something there
  (`Storage.JoinKeyStaysInside`); `a/..` asks for nothing and names the prefix. A prefix is empty or a clean
  key without a backslash (`Storage.Prefix`), as `normalizePrefix` leaves it unless it leaves a dot
  (`Storage.NormalizedIsGood`), with which nothing is ever listed (`Storage.DotPrefixListsNothing`).
- On a store with a prefix no path in an index has a second leading slash: `Head` takes it off with the prefix in front,
  and a clean, which joins to the empty prefix, does not (`Storage.PrefixHidesSlash`). `Collection.ReportsKeptExactly`
  is the exact condition for a clean to keep the report of a verification, and `Limits.SlashedPathLosesBody` is a
  package that loses its body.
- Texts are ASCII, and the round trips are about texts without carriage returns.
- Digests have their usual lengths. Where skipping a write of equal digest matters, MD5 does not collide on the
  bodies that occur (`Consistency.NoCollisions`, `Storage.CollisionFree`).
- Where a result says what is stored after a command, no other text has the MD5 digest of an object that was stored
  before (`Republished.NoneMistaken`): a `Put` of equal digest is skipped.
- What a client finds under `SHA256:` is about Releases of the program: those served at the start were printed by it
  (`Concurrent.AllServed`), as they are when there are none.
- A stored index that its Release does not list, for a component the Release names and one of the four architectures it
  provides for, is emptied by the next run that publishes anything else (`Republished.UnlistedIsEmptied`), so what stays
  as it was is said of listed indexes. Every Release of a history of commands from an empty store lists what it provides
  for (`CommandHistory.BothIndexesListed`).
- A command succeeds exactly when `Successes` says, given that it may make all its calls and that no other text has the
  SHA-256 digest of one that it stores by hash (`Successes.Ample`). That by-hash objects have the digest of their name
  holds in every history from an empty store (`Successes.CommandsKeepDigests`).
- A history of commands starts from a sound store, such as the empty one (`CommandHistory.EmptyIsSound`), and the
  artifacts of a run have at most 2^63 - 1 bytes (`CommandHistory.FitsMemory`).
- Backoff is exact when no doubling of the initial delay lies between 2^62 and the maximum
  (`Lock.DelayExactly`); a maximum of at most 2^62 is always safe.
- Lock tokens are fresh (`Lock.DistinctTags`). `Acquire` may fail after its `Put` took effect, so a failed `Acquire`
  may leave a lock object behind; the transition system has that step.
- A clean does not overlap a copy from the cleaned codename to another: the two hold different locks, and
  `Limits.LateRunDangles` is what can happen.

`docs/SIGNING.md` promises more than the code keeps: when signing fails the indexes of the run are already stored.
`Signatures.FailedSigningCanPublish` is a run that shows it, and `Signatures.FailedSigningPublishesNothing` says for
which runs and stores nothing changes. What never changes is `Release`, `Release.gpg` and `InRelease`
(`Signatures.FailedSigningLeavesTriple`).

## Model

| member | source | states |
|---|---|---|
| Control.ParseParagraph | internal/apt/control.go:25-65 | the parser loop returns exactly the fields the line-by-line reading gives: continuation lines joined, lone dots as blank lines, the last value of a repeated name in the first one's place, names distinct |
| Control.ContinuationOf | internal/apt/control.go:108-116 | a continuation line, its indentation and the rest, exactly for lines that start with white space and hold something |
| Control.ControlFieldOf | internal/apt/control.go:118-130 | name and value of a field line, exactly for lines with a valid name before the first colon |
| Control.Paragraph.Get | internal/apt/control.go:73-79 | lookup through the index agrees with the ordered fields |
| Control.Paragraph.Set | internal/apt/control.go:92-99 | replaces the value in place or appends, and keeps index and order in step |
| Control.Paragraph.Take | internal/apt/control.go:81-90 | returns the value and removes just that field; index and order stay in step |
| Control.Paragraph.Reindex | internal/apt/control.go:101-106 | rebuilds an index that points every name to its field |
| Control.WriteField | internal/apt/package_render.go:70-88 | appends the folded form of the field: first line beside the name, further lines indented, blank ones as a dot |
| Control.SplitValueLines | internal/apt/package_render.go:104-113 | the lines of a value without trailing empty ones: no line for the empty value, at least one for any other |
| Control.SurvivesIffCanonical | internal/apt/control.go:44-51 | folding and unfolding returns a value if and only if it is canonical, for every value |
| Control.ParseWritten | internal/apt/control.go:25-65 | parsing the concatenated fields returns the same names in order, each value folded and unfolded once |
| Control.ParagraphRoundTrip | internal/apt/control.go:25-65 | parsing written fields returns exactly the list if and only if every value is canonical |
| Control.ParseKeepsLast | internal/apt/control.go:36-62 | of any fields written, names repeated or not, the parser returns under each name the last value |
| Control.ParsedValuesUnfolded | internal/apt/control.go:36-62 | every value the parser returns, for any input: no line is indented, and an empty first line is followed by another empty one |
| Control.RefoldReachesFixpoint | internal/apt/package_render.go:70-88 | one more fold and unfold of a parsed value is a fixed point if and only if its last line is not a lone dot |
| Control.ParagraphSettles | internal/apt/control.go:25-65 | for any input, writing and parsing what was parsed settles the whole paragraph if and only if no value ends in a lone dot |
| Dependency.ParseDependencies | internal/apt/dependency.go:17-37 | the loop returns the entries between commas, each rebuilt and trimmed or kept |
| Dependency.MatchRebuilds | internal/apt/dependency.go:10 | the scanner for the entry pattern takes a recognised entry apart without losing a character |
| Dependency.TrimmedEntryKept | internal/apt/dependency.go:22-34 | a trimmed entry is returned as it stands, recognised or not |
| Dependency.NormalizeDependency | internal/apt/dependency.go:39-83 | the in-place edits yield the entries of the specification and the conflict of an inequality |
| Dependency.Canonicalise | internal/apt/dependency.go:40-52 | three bare words become parenthesised, an upper-case name lower, underscores dashes |
| Dependency.ThreeWordsRelate | internal/apt/dependency.go:40-45 | for plain words `name < version` and `name > version` become `name (<< version)` and `name (>> version)`, and the operators `<<`, `<=`, `=`, `>=`, `>>` and `!=` stay |
| Dependency.InequalityConflicts | internal/apt/dependency.go:70-72 | `name != version` leaves the dependencies and becomes the conflict `name (= version)` |
| Dependency.RaisePessimistic | internal/apt/dependency.go:58-66 | the slice edits give the upper bound: last segment but one raised, last one zero |
| Dependency.IterationAdmits | internal/apt/dependency.go:73-79 | among numeric versions of as many segments, raising the last one gives bounds that admit the version itself and nothing else |
| Dependency.ReadNumericVersion | internal/apt/dependency.go:99-106 | the numbers of the dotted segments, zero for anything else and clamped to 64 bits |
| Dependency.NumericVersionOfJoin | internal/apt/dependency.go:99-114 | printing numeric segments and reading them again returns them |
| Dependency.BoundStable | internal/apt/dependency.go:67 | a bound of a `~>` range normalises to itself if and only if its name has no upper-case letter |
| Dependency.NormalizedOnce | internal/apt/dependency.go:39-83 | every entry one normalisation leaves is trimmed and not empty, and is stable if and only if its name has no upper-case letter |
| Dependency.OnlyRangesKeepUpperCase | internal/apt/dependency.go:47-68 | only `~>` ranges can leave an entry with an upper-case name |
| Dependency.SteadyEntrySettles | internal/apt/dependency.go:39-83 | one normalisation settles an entry of a list if and only if it is no `~>` range or its name has no upper-case letter |
| Dependency.UpperCaseRange | internal/apt/dependency.go:53-67 | every range `(~> Name version)` with an upper-case letter in its name fails to settle |
| Dependency.FooDoesNotSettle | internal/apt/dependency.go:47-67 | `(~> Foo 1.2)` is an entry that does not settle |
| Dependency.DependsFixpoint | internal/apt/dependency.go:17-83 | after one normalisation, printing and parsing `Depends` returns the same entries, and normalising again changes nothing if and only if every entry settles |
| Dependency.PessimisticAdmits | internal/apt/dependency.go:58-67 | the two bounds of `~>` admit, among versions of as many segments, exactly those that agree up to the last segment and are no smaller in it |
| Dependency.PessimisticSingleAdmitsNothing | internal/apt/dependency.go:59-66 | with one segment the two bounds admit nothing |
| Dependency.PessimisticPrinted | internal/apt/dependency.go:47-67 | an entry `name (~> version)` becomes the two bounds of its range, the name in lower case and underscores as dashes, for every name and version that hold no characters of the operator |
| Dependency.PessimisticEntryAdmits | internal/apt/dependency.go:53-67 | the two versions printed for such an entry admit, among versions of as many segments, exactly those that agree up to the last segment and are no smaller in it |
| Package.SplitVersionText | internal/apt/package.go:134-146 | what `FullVersion` prints for the parts any version text splits into |
| Package.VersionRoundTrip | internal/apt/package.go:134-146 | `FullVersion` undoes the version split if and only if the part after the epoch does not start with its only dash |
| Package.VersionReadsBack | internal/apt/package.go:134-146 | a version with an epoch of digits or none and no dash upstream reads back from its text with the same epoch, upstream version and iteration |
| Package.TakeAll | internal/apt/package.go:74-132 | taking the template fields one by one yields their values and leaves exactly the other fields, in order |
| Package.CollectExtraFields | internal/apt/package.go:127-130 | the leftover fields renamed, later ones replacing earlier ones of the same name in place |
| Package.ParsePackage | internal/apt/package.go:74-132 | the parser by successive removal returns the package of the specification or its error |
| Package.NamesDistinct | internal/apt/package_render.go:26-60 | no two template fields share a name |
| Package.ParsedRecord | internal/apt/package.go:74-132 | parsing the record of a sound package succeeds with the package read back |
| Package.RecordByteStable | internal/apt/package_render.go:7-65 | a rendered record parses to a well-formed package of the same name, version and path, which renders the same bytes if and only if not every dependency became a conflict |
| Package.RelationsReread | internal/apt/package_render.go:13-39 | relations read back are settled: the same `Conflicts`, and the same `Depends` unless it vanished |
| Records.RecordTells | internal/apt/package_render.go:26-60 | a client that asks a record for any template field by its name is told that field of the package, folded once |
| Records.ConflictsGrow | internal/apt/package_render.go:13-25 | a further dependency `name != version` adds the conflict `name (= version)` behind the package's own conflicts and the earlier ones |
| Records.DependsGrow | internal/apt/package_render.go:13-36 | a further dependency of another kind adds what it becomes behind the earlier ones, and no conflict |
| Records.NoRelations | internal/apt/package_render.go:22-39 | without dependencies there is no `Depends`, and `Conflicts` is the package's own |
| Records.Placeholders | internal/apt/package.go:74-132 | a record without a license or a vendor is read with a placeholder for it |
| Records.FileDescribed | internal/deb/reader.go:145-153 | the record of an uploaded file gives, under their names, the path it is stored under, its size, and the three digests of its bytes |
| Records.PrefixTaken | internal/apt/package.go:179-194 | `X`, up to three of the letters `B`, `C`, `S` and a dash are taken off the name of an extra field, and no other prefix |
| Records.OtherNameStays | internal/apt/package.go:179-182 | a name that starts with another letter stays |
| Manifest.ParsePackages | internal/apt/manifest.go:77-94 | the loop over the pieces between blank lines returns the packages in order or the first error |
| Manifest.PiecesOfFirst | internal/apt/manifest.go:78 | splitting at blank lines separates a record from what follows and never splits inside it |
| Manifest.ManifestByteStable | internal/apt/manifest.go:77-109 | parsing a rendered manifest succeeds; the result renders the same bytes and keeps every name, version and path in order |
| Rereading.ExtraFieldWins | internal/apt/package_render.go:56-65 | a template field is read back from its own line, unless an extra field has its name; then the last of these wins |
| Rereading.PathKept | internal/apt/package_render.go:55-65 | a record that parses keeps the path of its package if and only if no extra field names another one |
| Rereading.RecordReread | internal/apt/package_render.go:7-65 | any package whose record can be written, canonical values or not and whatever template fields its extra fields repeat, reads back under its path as a package that can be written again, once no extra field leads to another path or an unreadable version |
| Rereading.IdentityKept | internal/apt/package_render.go:27-28 | with canonical name and version that no extra field repeats, it reads back with both |
| Rereading.IndexReread | internal/apt/manifest.go:77-109 | an index of such packages parses, and gives the same paths in order, and the same names and versions where these can be read back |
| Edits.Manifest.constructor | internal/apt/manifest.go:63-75 | a new manifest is empty and has the given options |
| Edits.Manifest.CheckConflict | internal/apt/manifest.go:115-137 | with fail-if-exists, the error for a package of the same name and version with another file name |
| Edits.Manifest.RetainOthers | internal/apt/manifest.go:139-148 | compaction in the backing array leaves the stable filter of the list |
| Edits.Manifest.Append | internal/apt/manifest.go:149 | appending into spare capacity or a larger copy gives the list and one more |
| Edits.Manifest.Add | internal/apt/manifest.go:111-154 | the stable filter of the old list plus the new package, and one more pending upload; on a conflict nothing changes |
| Edits.Manifest.DeletePackage | internal/apt/manifest.go:156-179 | deleted and retained packages are the two stable halves of the list |
| Edits.ConflictExactly | internal/apt/manifest.go:120-136 | there is no conflict if and only if every package of that name and version resolves to the same file name |
| Edits.AddedDistinct | internal/apt/manifest.go:139-149 | adding keeps pairs of name and version distinct |
| Edits.AddedAlone | internal/apt/manifest.go:139-149 | without preserving versions the new package is the only one of its name |
| Edits.AddedTwice | internal/apt/manifest.go:139-149 | adding a package twice is adding it once |
| Edits.DeletionPartitions | internal/apt/manifest.go:156-179 | a deletion loses and invents nothing, takes exactly the named versions, and leaves none of them |
| Edits.EditsKeepPairsDistinct | internal/apt/manifest.go:111-179 | no sequence of adds and deletes makes two packages of one name and version |
| Edits.AddKeepsBytes | internal/apt/manifest.go:96-154 | adding after a parse renders the same bytes as adding to the manifest that was rendered |
| Edits.DeleteKeepsBytes | internal/apt/manifest.go:96-179 | deleting after a parse renders the same bytes as deleting from the manifest that was rendered |
| Edits.IndexIsSplit | internal/apt/package.go:134-146 | every package of a parsed index has the version that its printed version splits into, as the deletion above needs |
| Release.ParseRelease | internal/apt/release.go:74-121 | the loops over lines return the fields and the files merged from three sections |
| Release.FindReleaseField | internal/apt/release.go:169-177 | the rest of the first line that starts with the name |
| Release.Release.Render | internal/apt/release.go:127-153 | the builder yields the header fields and the three sorted sections of the specification that `Clients.SectionsAsRead` and `Clients.HeaderAsRead` read as a client does |
| Release.WriteReleaseHashes | internal/apt/release.go:179-186 | one section, a line per file with the size in width 16 |
| Release.Release.UpdateManifest | internal/apt/release.go:155-167 | component and architecture listed once each, the manifest's entries over the old ones |
| Release.MergeFiles | internal/apt/release.go:164-166 | copying a map entry by entry, in any order, is the override |
| Release.ReadBody | internal/apt/release.go:93-119 | reading three sections of sorted lines merges them back into the one map of files |
| Release.ReleaseRoundTrip | internal/apt/release.go:74-153 | parsing a rendered Release recovers files, lists, origin, codename and by-hash, for every Release that fits its format |
| Release.UpdateKeepsRenderable | internal/apt/release.go:155-167 | updating with words and sized entries keeps a Release in its format |
| Clients.SectionsAsRead | internal/apt/release.go:144-151 | under each of the literal headings `MD5Sum:`, `SHA1:` and `SHA256:` a client that takes the indented lines below finds every file exactly once, with its size and the digest of that kind, and nothing else |
| Clients.HeaderAsRead | internal/apt/release.go:131-139 | a client finds codename, date, origin and suite under their names |
| Clients.ListsAsRead | internal/apt/release.go:137-142 | a client finds architectures and components as words, and `Acquire-By-Hash` exactly when by-hash is on |
| Order.SortedUnique | internal/apt/release.go:144-148 | a set has one ascending list, so sorting file names is a function of the set |
| Storage.LogicalUndoesJoin | internal/storage/store.go:86-133 | on clean keys `JoinKey` puts the key below the prefix and `logicalKey` takes it back |
| Storage.JoinKeyInjective | internal/storage/store.go:86-106 | no two clean keys share an object |
| Storage.JoinKeyCleans | internal/storage/store.go:86-106 | any accepted key, also one that starts with several slashes, names the object of what it asks for, or the prefix itself when it asks for nothing |
| Storage.JoinKeyStaysInside | internal/storage/store.go:91-105 | an accepted key stays below the prefix if and only if it asks for something there |
| Storage.RefusedExactly | internal/storage/store.go:91-101 | a key is refused if and only if, one leading slash off, it is empty or a dot, holds a backslash, or climbs out |
| Storage.NormalizedIsGood | internal/storage/store.go:108-121 | a prefix that can be normalised becomes empty or a clean key without a backslash, except when it becomes a dot |
| Storage.DotPrefixListsNothing | internal/storage/store.go:86-133 | with a dot for a prefix every clean key is stored as it is and `logicalKey` does not know it again |
| Storage.PrefixHidesSlash | internal/storage/store.go:86-106 | a key that asks for something names the same object with and without a prefix if and only if the prefix is empty or the key has no second leading slash |
| Storage.DotDotKeyLeavesPrefix | internal/storage/store.go:91-105 | `a/..` is accepted and names the prefix itself, which no listing reports |
| Storage.MemoryStore.constructor | internal/storage/memory.go:26-37 | an empty store with the normalised prefix, or the prefix as given when it cannot be normalised |
| Storage.MemoryStore.Get | internal/storage/memory.go:39-54 | the bytes under the joined key or not-found |
| Storage.MemoryStore.Head | internal/storage/memory.go:56-74 | the ETag under the joined key or not-found |
| Storage.MemoryStore.Put | internal/storage/memory.go:76-119 | skips equal digests, refuses other bytes for create-only and fail-if-exists, else stores bytes and digest; an error changes nothing |
| Storage.MemoryStore.Delete | internal/storage/memory.go:121-133 | removes just the joined key |
| Storage.MemoryStore.DeleteIfMatch | internal/storage/memory.go:135-154 | removes the object only under its current ETag, quotes trimmed on both sides |
| Storage.ETagQuoted | internal/storage/memory.go:248-250 | an ETag means the same with and without quotes around it |
| Storage.MemoryStore.List | internal/storage/memory.go:195-231 | the sorted logical keys of the objects under the joined prefix, in whatever order the map is visited |
| Storage.ViewAfterPut | internal/storage/memory.go:104-117 | a stored object is one entry of the plain map |
| Storage.ViewAfterDelete | internal/storage/memory.go:121-133 | a deleted object is one entry less |
| Storage.PutRefines | internal/storage/memory.go:76-119 | `Put` acts on the plain map as a map should: it fails exactly when refused over other bytes, and otherwise the key has the data |
| Storage.OutsideUntouched | internal/storage/store.go:86-106 | no clean key names an object outside the prefix |
| Storage.ListIsExact | internal/storage/memory.go:195-231 | listing `x/` yields exactly the keys below `x` |
| Keys.PackagesPathIs | internal/apt/manifest.go:181-183 | `path.Join` of clean parts is the text of the index's name |
| Keys.ReleasePackagesPathIs | internal/apt/release_publish.go:40 | plain concatenation and `path.Join` name the same entry for single-segment components |
| Keys.ByHashPathIs | internal/apt/manifest_publish.go:28-30 | the by-hash path of an artifact is the text of its name |
| Keys.ClientPathIs | internal/apt/manifest_publish.go:28-30 | the path a client derives from a Release entry is the one the publisher wrote |
| Keys.KeyTextInjective | internal/apt/manifest.go:181-187 | distinct objects of distinct suites have distinct keys |
| Keys.EntryNameInjective | internal/apt/manifest.go:185-187 | distinct suites have distinct entries in a Release |
| Calls.Bucket.Put | internal/storage/memory.go:76-119 | one call of a run that may stop: skip, refuse or store |
| Calls.ImageOfPut | internal/storage/memory.go:104-117 | a call on a typed name is the call on its key and changes no other object |
| Calls.ImageOfDelete | internal/storage/memory.go:121-133 | the same for a deletion |
| Instance.RealPackagesLaw | internal/apt/manifest.go:77-109 | the real parser and printer of `Packages` undo each other as far as publishing needs: the same paths in order under any codename, and packages that can be published again |
| Instance.RealPlaceLaw | internal/apt/package.go:108 | packages read from an index have one path under every codename |
| Instance.FileIsGood | internal/deb/reader.go:113-155 | a package file as inspection leaves it can be uploaded once its version and path fit their lines and no extra field leads to another path or an unreadable version |
| Instance.DerivedPlace | internal/apt/package.go:148-172 | a package without a path of its own goes below the pool of the codename and the first letter of its name, under the last element of its file name |
| Instance.RealReleaseLaw | internal/apt/release.go:74-153 | the real parser and printer of `Release` undo each other |
| Instance.RealWorldLawful | internal/apt/manifest.go:77-109 | the laws that all results about publishing rest on hold for the repository's own codecs |
| Publication.ArtifactsAgree | internal/apt/manifest_publish.go:37-70 | the plain artifact reads back as the packages, the other is its compressed form; Release entry, canonical object and by-hash object agree on the bytes of each |
| Publisher.MissingManifests | internal/apt/release_publish.go:33-54 | the nested loop returns the missing manifests of the specification in order |
| Publisher.PublishByHash | internal/apt/manifest_publish.go:108-129 | two create-only calls, plain first, or none when by-hash is off |
| Publisher.PublishCanonical | internal/apt/manifest_publish.go:131-147 | two overwriting calls, plain first |
| Publisher.PublishEach | internal/apt/manifest_publish.go:72-91 | manifest by manifest: by-hash calls, then canonical ones |
| Publisher.PrepareAll | internal/apt/metadata_publish.go:20-35 | builds every artifact in memory and records all of them in the Release |
| Publisher.PublishTriple | internal/apt/release_publish.go:68-114 | signed: Release, detached, InRelease after both artifacts are in hand; unsigned: both signatures deleted, then Release; refused signing: no call |
| Publisher.PublishRelease | internal/apt/release_publish.go:56-115 | the calls of `Release.Publish` in order, cut off wherever the run stops |
| Publisher.PublishMetadata | internal/apt/metadata_publish.go:16-56 | everything prepared first; then all by-hash objects, all canonical ones, the Release, in this global order, cut off wherever the run stops |
| Publication.MissingNothing | internal/apt/release_publish.go:33-54 | nothing is missing if and only if every listed component has an index entry for every listed architecture that Releases provide for |
| Publication.BackfillCompletes | internal/apt/release_publish.go:14-54 | after recording the missing manifests the Release is complete and lists no more than before |
| Publication.BackfillIsFixedPoint | internal/apt/metadata_publish.go:31-55 | after the prepare loops nothing is missing, so the validation inside `Publish` writes no index |
| Publication.BothEntriesListed | internal/apt/release_publish.go:33-54 | after publishing, every component lists the plain index of every architecture that Releases provide for; it lists the compressed one too if and only if the Release found did not list the plain one alone, or the run publishes that suite |
| Publication.BareExactly | internal/apt/manifest_publish.go:149-155 | recording leaves a suite with its plain index alone if and only if it was so before and is not recorded |
| Publication.UploadOfNothing | internal/apt/metadata_publish.go:16-56 | publishing metadata is an upload without bodies |
| Publication.RecordAllSane | internal/apt/release.go:155-167 | recording proper manifests keeps a Release in its format and listing only indexes of proper suites |
| Concurrent.StartKeepsInv | internal/apt/metadata_publish.go:16-56 | a publisher that has prepared everything has, for each entry it will publish, the by-hash object stored or a call ahead of its Release that stores it |
| Concurrent.WriteKeepsInv | internal/storage/s3.go:145-199 | the conditional write after a stale Head, skipped, refused or applied, keeps the invariant |
| Concurrent.NextKeepsInv | internal/apt/metadata_publish.go:16-56 | every step of every publisher, crash or clean keeps the invariant, and by-hash objects never change or go |
| Concurrent.OldGenerationsStayFetchable | internal/apt/manifest_publish.go:108-147 | for any number of unlocked publishers interleaved call by call and stopping anywhere, on any store whose Releases are covered by by-hash objects: every index listed in a Release or InRelease once readable can be fetched by its hash then and at any later moment, unchanged and with matching digest |
| Concurrent.RunIsExecution | internal/apt/metadata_publish.go:16-56 | every execution can go on with a job that an idle publisher does undisturbed, cut off anywhere: Head and write of each call come to one call of the sequential run, and it leaves what that run leaves |
| History.UploadPlanSafe | internal/upload/upload.go:177-195 | bodies come before the indexes that name them in every prefix of an upload |
| History.ReleasePlanSafe | internal/apt/release_publish.go:56-115 | publishing a Release alone writes no index that names a body |
| History.CollectExec | internal/maintenance/maintenance.go:177-186 | deleting unreferenced bodies keeps integrity after every deletion |
| History.RunKeepsIntegrity | internal/apt/metadata_publish.go:45-55 | any run, stopped after any number of calls, keeps every stored index backed by stored bodies |
| CommandHistory.RunStands | internal/apt/metadata_publish.go:16-56 | a run of proper options keeps every object name clean and every Release in its format, wherever it stops |
| CommandHistory.CommandKeepsSound | internal/upload/upload.go:51-198 | upload, copy, delete, verify with repair and clean, each given by the contract of its program: from a sound store, however far the command gets and whether or not it succeeds, the store is sound again |
| CommandHistory.CommandsKeepIntegrity | internal/upload/upload.go:177-195 | in every history of these commands, each stopped anywhere, every package of every stored index has its body in the pool |
| CommandHistory.RunKeepsReleases | internal/apt/release_publish.go:33-66 | a run, stopped anywhere, leaves every Release as it was or writes a complete one, which lists a plain index alone only where the Release before did |
| CommandHistory.BothIndexesListed | internal/apt/release_publish.go:33-66 | in every history of commands, each stopped anywhere: every Release lists both indexes of every suite it provides for, unless it is still the text found at the start or the one found there listed the plain index alone |
| Signatures.RunInTwoParts | internal/apt/release_publish.go:56-115 | every run makes all its other calls before it touches Release or signatures |
| Signatures.UnsignedStandsAlone | internal/apt/release_publish.go:77-83 | in every history with crashes, whatever bodies are missing, a Release last stored by an unsigned publish stands beside no signature |
| Signatures.FailedSigningLeavesTriple | internal/apt/release_publish.go:69-76 | a failed or empty signing leaves Release, Release.gpg and InRelease as they were |
| Signatures.FailedSigningPublishesNothing | internal/apt/release_publish.go:56-76 | a run whose signing is refused never changes the store if and only if every call before the signing finds its bytes stored already, up to one that is denied |
| Signatures.FailedResignPublishesNothing | internal/apt/release_publish.go:56-76 | signing anew with nothing to backfill changes nothing when the signing is refused |
| Signatures.FailedSigningCanPublish | internal/apt/metadata_publish.go:36-56 | the first publish of a suite stores its index although its signing is refused |
| Signatures.InReleaseComesLast | internal/apt/release_publish.go:88-113 | InRelease changes only when the run's own Release and detached signature are stored |
| Consistency.ExecEffect | internal/storage/memory.go:76-133 | calls that all succeed leave under each key what the last call on it says |
| Consistency.RecordedDescribe | internal/apt/manifest_publish.go:149-155 | the recorded entries describe the indexes the calls leave, the last manifest of a suite winning in both |
| Consistency.PublishKeepsConsistent | internal/apt/metadata_publish.go:20-55 | a completed run leaves every Release describing the stored indexes |
| Consistency.ReleaseDescribesIndexes | internal/apt/metadata_publish.go:20-55 | over histories of completed runs that start from any store whose Releases describe its indexes, whatever bodies are missing, every entry of every stored Release has the size and digests of the index under its name, carried through parse and render |
| Limits.LateRunDangles | internal/manage/manage.go:59-113 | a publish planned while a body was stored and carried out after a clean deleted it leaves an index without its body |
| Limits.ByHashMidwayLeavesGap | internal/apt/manifest_publish.go:108-129 | a run that switches by-hash on for one suite leaves the entries of another without by-hash objects, however far it gets |
| Limits.PlainEntryStaysAlone | internal/apt/release_publish.go:33-54 | a run that publishes other things leaves a stored Release listing a plain index without its compressed form, after any number of its calls |
| Limits.SlashedPathLosesBody | internal/maintenance/maintenance.go:122-188 | on a store with a prefix, a package listed with two slashes in front of its path is found by a verification, loses its body to a clean, and the next verification misses it |
| StrayPaths.UploadGoesAstray | internal/upload/upload.go:51-198 | an upload of a package with an extra field `Filename` of another value stores an index that names an object which is not there, from its second call on |
| StrayPaths.PackageFileGoesAstray | internal/deb/reader.go:113-155 | so does a package file whose control file has a line `XB-Filename` with one word, for every codename and file name that give it another path |
| StrayPaths.LaterIndexGoesAstray | internal/apt/package.go:127-130 | a package file with a line `X-XB-Filename` gets an index that names its body, and the index printed from what is read of that one names an object that is not there |
| StrayPaths.SlashedFilenameLosesBody | internal/maintenance/maintenance.go:122-188 | with the real parser and printer, a package whose extra field `Filename` has two slashes in front of its own path loses its body to a clean that way |
| Commander.Select | internal/manage/manage.go:90-99 | the packages of the name and of the wanted versions, in order |
| Commander.Copy | internal/manage/manage.go:59-113 | retrieves, selects, adds and publishes in this order; any error before publishing leaves the store alone; what is stored then is `CommandResults.CopyLeaves` |
| Commander.Delete | internal/manage/manage.go:115-174 | publishes the manifests that lost packages; nothing deleted or any error leaves the store alone; what is stored then is `CommandResults.DeleteLeaves` |
| Commander.Check | internal/maintenance/maintenance.go:78-100 | keeps the packages whose path, joined to the prefix of the store, names a stored object, up to the first that cannot be resolved or is refused |
| Commander.Verify | internal/maintenance/maintenance.go:55-120 | counts and repairs as `VerifyResults.ReportAccounts` says, republishes repaired manifests, else only signs anew, else writes nothing |
| Commands.SurvivingIsFilter | internal/maintenance/maintenance.go:80-100 | a check keeps exactly the packages whose body is stored, in order |
| Commands.CopyAdmissible | internal/manage/manage.go:59-113 | on a store with integrity a copy names stored bodies only |
| Commands.DeleteAdmissible | internal/manage/manage.go:115-174 | so does a deletion |
| Commands.RepairAdmissible | internal/maintenance/maintenance.go:101-111 | a repair names stored bodies only, even after bodies were lost |
| Commands.RepairIsAdmissible | internal/maintenance/maintenance.go:101-111 | on a store with integrity every package a verification looks at is good, so its repair is safe to publish |
| Commands.NothingMissing | internal/maintenance/maintenance.go:78-107 | on a store with integrity verification finds nothing missing |
| Adding.AddedExactly | internal/apt/manifest.go:139-149 | adding a list leaves the packages whose place none of it takes, in order, and then those of the list whose place no later one takes, in order |
| Adding.AddedCounts | internal/apt/manifest.go:139-149 | afterwards an added package that no later one replaces is there once, one that was there and is not replaced as often as before, and nothing else |
| Adding.RefusedExactly | internal/apt/manifest.go:115-137 | adding a list is refused if and only if fail-if-exists is set and one of it has no path, or meets one of its name and version with another file name or without a path |
| Republished.IndexesLeft | internal/apt/metadata_publish.go:36-52 | a run to its end leaves both indexes of every suite it was given with the printed packages and their compressed form |
| Republished.IndexesKept | internal/apt/metadata_publish.go:16-56 | however far a run gets, the indexes of other codenames, and those that the Release lists and the run was not given, stay as they were |
| Republished.HashesLeft | internal/apt/manifest_publish.go:108-129 | a run to its end leaves the by-hash objects of a suite with by-hash on |
| Republished.ReleaseLeft | internal/apt/release_publish.go:56-115 | a run to its end leaves the Release it recorded, with the two artifacts of the signer beside it, or neither when there is no signer |
| Republished.ReleaseAsAsked | internal/apt/release_retrieve.go:14-46 | the Release left has the origin, suite and by-hash setting of the caller, and where the caller gives none what the stored Release said |
| Republished.ReleaseLists | internal/apt/release.go:155-167 | the Release left names every component and architecture published and lists both their indexes with sizes and digests |
| Republished.UnlistedIsEmptied | internal/apt/release_publish.go:33-54 | an index that is stored but that the Release provides for and does not list is replaced by an empty one in any run that publishes something else |
| Republished.NoCallsExactly | internal/apt/metadata_publish.go:20-35 | a run with manifests to publish makes no call if and only if one of them cannot be printed or it may make none |
| CommandResults.CopyLeaves | internal/manage/manage.go:59-113 | after a copy that succeeds the stored destination index lists the packages there that none of those asked for replaces, in order, and then those asked for, each once; listed indexes it was not about and all bodies are as before |
| CommandResults.CopyFails | internal/manage/manage.go:59-113 | a copy fails and leaves the store alone if and only if an index cannot be read, no package of the name and versions is there, the destination refuses one, the result cannot be printed, or no call is allowed |
| CommandResults.DeleteLeaves | internal/manage/manage.go:115-174 | after a deletion that succeeds the stored index of every architecture it was about lists the old packages without those of the name and versions, in order; listed indexes that lose nothing and all bodies are as before |
| CommandResults.DeleteFails | internal/manage/manage.go:115-174 | a deletion fails and leaves the store alone if and only if an index cannot be read, no index has such a package, a result cannot be printed, or no call is allowed |
| CommandResults.ShownReadsBack | internal/apt/manifest.go:77-109 | good packages that an index lists read back from it in order |
| VerifyResults.ReportAccounts | internal/maintenance/maintenance.go:69-107 | a verification gets through if and only if every listed index can be read and every path resolved; it counts the packages and those without a body, and has one manifest for each index with such a package, without them, when it is told to repair, and none otherwise |
| VerifyResults.LookingChangesNothing | internal/maintenance/maintenance.go:97-119 | with nothing to repair, or not told to, and unsigned, it leaves the store alone |
| VerifyResults.LookingSigns | internal/maintenance/maintenance.go:113-118 | signed, it then leaves a Release with the signatures and all bodies as before |
| VerifyResults.RepairLeaves | internal/maintenance/maintenance.go:101-112 | after a repair that succeeds every stored index with a package without a body lists those whose body is there; other listed indexes and all bodies are as before |
| Successes.CopySucceeds | internal/manage/manage.go:59-113 | a copy from readable indexes, with calls enough and by-hash digests that tell texts apart, succeeds if and only if a package is asked for, the destination refuses none, the result can be printed and the signer, if any, gives both artifacts |
| Successes.DeleteSucceeds | internal/manage/manage.go:115-174 | so does a deletion, if and only if every index it is about can be read, one has such a package, the results can be printed and signing succeeds |
| Successes.RepairSucceeds | internal/maintenance/maintenance.go:101-112 | so does a repair, if and only if every listed index can be read, every path resolved, the results can be printed and signing succeeds |
| Successes.ResignSucceeds | internal/maintenance/maintenance.go:113-118 | so does signing anew, if and only if everything can be checked and signing succeeds |
| Successes.UploadSucceeds | internal/upload/upload.go:51-198 | so does an upload, if and only if it is not refused, every index reached can be printed, every body to be stored has a file and a path below `pool/`, with fail-if-exists nothing else is or comes under any of these paths, and signing succeeds |
| Successes.ExecGetsThrough | internal/storage/memory.go:76-119 | calls all get through when none that must not replace an object meets another digest, stored or of the same run |
| Successes.GuardedGetThrough | internal/storage/memory.go:76-119 | calls none of which may replace an object get through only then |
| Successes.RunKeepsDigests | internal/apt/manifest_publish.go:108-129 | a run, stopped anywhere, keeps every by-hash object with the digest of its name |
| Successes.CommandsKeepDigests | internal/apt/manifest_publish.go:108-129 | in every history of commands that starts from an empty store, each stopped anywhere, every by-hash object has the digest of its name |
| Upload.LoadExtends | internal/upload/upload.go:82-93 | loading keeps what was loaded, in order, one manifest to an architecture, and finds the one asked for |
| Upload.LoadReadsIndex | internal/upload/upload.go:82-93 | loading an index that was published returns the packages it was printed from; a manifest loaded before keeps what the run added to it |
| Uploader.PlaceFile | internal/upload/upload.go:101-139 | one file in place: architecture override, defaults for a first architecture-all package, add to its manifest, or the first error, as the specification says whose outcome `Upload.UploadPlaces` and `Upload.AcceptedExactly` give |
| Uploader.SpreadEach | internal/upload/upload.go:140-149 | adding architecture-all packages gives the same manifests in whatever order the map is visited, and fails in all orders or none |
| Uploader.PublishBodies | internal/upload/upload.go:178-182 | the body calls in order, each checked to stay under `pool/` |
| Uploader.PublishPackage | internal/apt/manifest_publish.go:161-195 | one body: refused without a source file, without a path or outside `pool/`, else one conditional call |
| Uploader.Upload | internal/upload/upload.go:51-198 | all examination, placing and preparing happens before the first call, and any error there means no call; then bodies, by-hash, canonical, Release; what is stored then is in `UploadResults` |
| Upload.FanOut | internal/upload/upload.go:136-149 | a package made for `all`, without an override or with the override `all`, that no later one for `all` replaces is exactly once in every manifest of the run, those loaded later included |
| Upload.OwnManifest | internal/upload/upload.go:107-135 | a package of one architecture, or of any under an override, that no later one for it and none for `all` replaces is exactly once in the manifest of that architecture |
| Upload.UploadPlaces | internal/upload/upload.go:101-149 | a manifest of the run holds the stored packages that none of the run for it or for `all` replaces, in order, and then the run's packages for it and for `all`, each once; what is for one architecture changes no other manifest |
| Upload.ManifestsReached | internal/upload/upload.go:94-132 | there is a manifest for exactly the architectures that the Release lists, that a file is made for or the override names, and the four defaults when nothing is published and the first file is for `all` |
| Upload.AcceptedExactly | internal/upload/upload.go:94-149 | the placing succeeds if and only if every file has an architecture to go to that is not another than the override, and every index reached can be read and takes the packages of the run for it |
| Upload.FileBodiesCalled | internal/upload/upload.go:178-182 | every file placed has its body among the calls |
| Upload.UploadAdmissible | internal/upload/upload.go:93-198 | an upload names stored bodies or bodies it stores first |
| UploadResults.UploadLeaves | internal/upload/upload.go:94-195 | after an upload that succeeds the stored index of every architecture reached lists the packages stored there before that none of the run replaces, in order, and then the run's for it and for `all`; its compressed form, and with by-hash both under their digests, are stored too |
| UploadResults.UploadChangesOnly | internal/upload/upload.go:94-195 | wherever it stops, it changes no index of another codename and none the Release lists that it does not reach |
| UploadResults.UploadStoresBodies | internal/upload/upload.go:178-182 | after an upload that succeeds the object under the path of each file has the bytes of that file, when the files of the run with this path agree |
| UploadResults.UploadReplacesNothing | internal/upload/upload.go:178-182 | an upload that must not replace files, and succeeds, leaves every body that was stored as it was |
| UploadResults.UploadLeavesBodies | internal/upload/upload.go:178-182 | told to skip the bodies it stores none |
| UploadResults.UploadRefused | internal/upload/upload.go:101-149 | it is refused before its first call if and only if a file cannot be examined, is made for another architecture than the override or has none, or an index reached cannot be read or refuses a package |
| Maintenance.DeletesExactly | internal/maintenance/maintenance.go:122-188 | a clean deletes a key if and only if it is under the pool of the codename and no manifest of any codename refers to it |
| Maintenance.DeletionsExist | internal/maintenance/maintenance.go:126-170 | a clean gets to deleting if and only if the codename is safe and every manifest parses and resolves; otherwise it deletes nothing |
| Maintenance.CleanTwice | internal/maintenance/maintenance.go:122-188 | a second clean finds nothing to delete |
| Collection.CleanKeepsReports | internal/maintenance/maintenance.go:55-120 | a clean, stopped anywhere, changes no report of any verification when the store has no prefix, or no path in a stored index keeps a leading slash once one is taken off |
| Collection.ReportsKeptExactly | internal/maintenance/maintenance.go:55-188 | on a store with any prefix, a clean that got to its end has kept the report if and only if no path that is verified is looked up, behind a second leading slash, under a key of the cleaned pool that is stored and that no index protects; wherever it stopped, it has kept it in that case |
| Maintenance.PoolIsClean | internal/maintenance/maintenance.go:190-196 | an accepted codename gives a clean prefix below `pool/` |
| Maintenance.ReadReferences | internal/maintenance/maintenance.go:146-170 | the loops collect the references of all manifests or fail |
| Maintenance.CleanPool | internal/maintenance/maintenance.go:122-188 | on the memory store: reads everything, then deletes exactly the specified keys and touches nothing else; on a failure nothing changes |
| Collection.CleanAdmissible | internal/maintenance/maintenance.go:122-188 | what a clean deletes is unreferenced by any stored index |
| Collection.CleanIsRun | internal/maintenance/maintenance.go:122-188 | the calls of a clean, stopped after any number, leave exactly the store that `CleanPool` specifies after as many deletions |
| Lock.NextKeepsInv | internal/lock/lock.go:110-123 | every step of any contender or the operator keeps: a tagged handle knows the ETag of its own body, and at most as many live handles are without their body as the operator made deletions |
| Lock.LiveHandlesBounded | internal/lock/lock.go:74-165 | in every schedule, also one that starts with a lock object left behind by someone else, there is at most one live handle more than the operator made deletions |
| Lock.MutualExclusion | internal/lock/lock.go:74-165 | without an operator there are never two live handles, and the live one's body is in the lock object |
| Lock.ReleaseDeletesOwnBody | internal/lock/lock.go:197-231 | whatever the operator does and whenever, Release deletes only the body of its own owner |
| Lock.AttemptsBounded | internal/lock/lock.go:110-165 | with a bound of at least one, no contender attempts more creations than the bound in any schedule |
| Lock.OperatorAllowsTwo | internal/lock/lock.go:110-123 | one deletion by hand is enough for two live handles: the bound is sharp |
| Lock.Acquire | internal/lock/lock.go:110-165 | the attempt loop ends at the first decisive round or at the bound, returns that round's handle, and counts the creations |
| Lock.RetryDelay | internal/lock/lock.go:265-271 | the doubling loop on 64-bit durations |
| Lock.DelayExactly | internal/lock/lock.go:265-271 | the delay is the minimum of the doubled initial delay and the maximum for every attempt if and only if no doubling overflows |
| Lock.ScaledIsPower | internal/lock/lock.go:265-271 | the delay without a maximum is the initial one times a power of two |
| Lock.ModestMaximumIsSafe | internal/lock/lock.go:265-271 | no doubling overflows below a maximum of 2^62 |
| Lock.DelayNondecreasing | internal/lock/lock.go:265-271 | the delay never shrinks and stays between the initial delay and the maximum |
| Lock.LargeMaximumOverflows | internal/lock/lock.go:265-271 | an input for which the delay turns negative |
| Lock.DefaultsUsable | internal/lock/lock.go:245-263 | defaults give an ordered, positive backoff and bound attempts or time unless the caller declined both; applying them twice changes nothing; what the caller gives is kept, and without anything given they are 60 attempts from 100 ms to 10 s |
| Lock.LockPathIs | internal/lock/lock.go:237-243 | an accepted codename has its lock in its cleaned suite |
| Lock.OneLockPerSuite | internal/lock/lock.go:233-243 | two codenames share a lock if and only if they clean to the same suite |
| Handles.Attempt | internal/lock/lock.go:114-123 | one attempt on the memory store takes the lock exactly when no other body is in the way, and the handle knows the ETag of the stored body |
| Handles.Handle.Release | internal/lock/lock.go:197-231 | deletes the lock object exactly when token and ETag are this owner's, accepts that it is gone, leaves anyone else's, and does nothing the second time |
| Handles.TakeAndRelease | internal/lock/lock.go:74-231 | taking a free lock and releasing it leaves the store as it was |
| Archive.ArReader.Next | internal/deb/ar.go:33-89 | skips the rest of the body and its padding, and returns what stands where the next header is due |
| Archive.ArReader.ReadBody | internal/deb/ar.go:102-115 | bytes of the current body only, the next header stays where it is, and an input that ends inside the body is told from the end of the body |
| Archive.HeaderReadsBack | internal/deb/ar.go:59-88 | a padded header parses back to its name and size |
| Archive.HeaderExactly | internal/deb/ar.go:59-88 | a header of any name and size that fit is refused if and only if the name without a slash at its end is empty or one of the extended forms, and else gives that name and the size |
| Archive.ArchiveLaidOut | internal/deb/ar.go:33-89 | an archive of any members reads as exactly these members and then its end |
| Archive.ReadMembers | internal/deb/ar.go:33-115 | whatever part of each body is consumed and however the input arrives, exactly the members come out in order, and every byte passed the counter and the hashes |
| PackageFile.AcceptsGrammar | internal/deb/reader.go:67-112 | the state machine accepts a list of names if and only if it reads debian-binary, ignorable, control archive, ignorable, data archive, anything |
| PackageFile.ValidateDebianBinary | internal/deb/reader.go:157-174 | accepted if and only if small, whole and of major version two |
| PackageFile.SupportedExactly | internal/deb/reader.go:157-174 | a format version is supported if and only if it starts with `2.`, white space around it apart |
| PackageFile.LimitedReader.Read | internal/deb/reader.go:311-328 | an error exactly when a byte beyond the limit is there |
| PackageFile.ReadLimited | internal/deb/reader.go:311-328 | a stream is read to its end if and only if it is within the limit |
| Inspection.HandleMember | internal/deb/reader.go:67-101 | one member passes if and only if its name fits the state, the version is supported and the control archive unpacks |
| Inspection.PackagePasses | internal/deb/reader.go:56-111 | in a package file every member passes in the state the ones before it lead to |
| Inspection.ReadArchive | internal/deb/reader.go:43-111 | succeeds if and only if the input is a package file, with its members and its control file, and every byte was counted and hashed |
| Inspection.ReadPackage | internal/deb/reader.go:43-133 | returns the metadata of the control file without index fields and the size and digests of the whole input, exactly for package files whose control file parses |
| Inspection.BuiltIsPackage | internal/deb/reader.go:56-111 | any archive built in the order of the format is a package file |
| Guarantees.LawsAreMet | internal/apt/manifest_publish.go:197-207 | the laws all results about publishing assume are met by the real codecs with any digests of the usual lengths |
| Guarantees.ClientsCanFetch | internal/apt/manifest_publish.go:108-147 | with the real codecs: every line a client finds under `SHA256:` in a Release or InRelease it once read names an index that stays fetchable by that digest beside the listed file, with unchanged bytes that have the digest |
| Guarantees.IndexedBodiesExist | internal/maintenance/maintenance.go:80-86 | with the real codecs, in every history of commands: every package of every stored index resolves, and its body is stored |
| Guarantees.BothIndexesListed | internal/apt/release_publish.go:33-66 | with the real codecs, in every history of commands that starts from an empty store: every Release lists the plain and the compressed index of every suite it provides for |
| Guarantees.EntriesMatchIndexes | internal/apt/metadata_publish.go:20-55 | with the real codecs: every entry of a stored Release is the size and digests of the stored index |
| Guarantees.CopyIsSafe | internal/manage/manage.go:59-113 | a copy keeps referential integrity wherever it stops |
| Guarantees.DeleteIsSafe | internal/manage/manage.go:115-174 | a deletion keeps referential integrity wherever it stops |
| Guarantees.VerifyIsSafe | internal/maintenance/maintenance.go:55-120 | so does a verification, whether it repairs, signs anew or only looks |
| Guarantees.CleanIsSafe | internal/maintenance/maintenance.go:122-188 | so does a clean |
| Guarantees.ReportsSurviveCleans | internal/maintenance/maintenance.go:55-188 | with the real codecs and any prefix: the exact condition for a clean to keep the report of a verification |
| Guarantees.UploadIsSafe | internal/upload/upload.go:51-198 | an upload that is not told to leave bodies out keeps referential integrity wherever it stops or fails |
| Guarantees.CopyReadsAs | internal/manage/manage.go:59-113 | with the real codecs: after a copy the destination index parses to the packages there that none asked for replaces and then those asked for, in order |
| Guarantees.DeleteReadsAs | internal/manage/manage.go:115-174 | with the real codecs: after a deletion every index that had such packages parses to the others, in order |
| Guarantees.RepairReadsAs | internal/maintenance/maintenance.go:101-112 | with the real codecs: after a repair every index with a package without a body parses to those whose body is there, in order |
| Guarantees.UploadReadsAs | internal/upload/upload.go:94-195 | with the real codecs: after an upload the index of every architecture reached parses to the stored packages that none of the run replaces and then the run's |

## Left out

- CommandResults.CopyLeaves: says what a copy leaves when it succeeds; one cut off leaves any prefix of its calls, and for that `Guarantees.CopyIsSafe` says what holds.
- CommandResults.DeleteLeaves: the same, with `Guarantees.DeleteIsSafe`.
- VerifyResults.RepairLeaves: the same, with `Guarantees.VerifyIsSafe`.
- UploadResults.UploadLeaves: the same, with `Guarantees.UploadIsSafe`.
- CommandResults.ShownReadsBack: a package read back has the name and version it had when these are canonical and no extra field repeats their names (`Rereading.IdentityKept`); other fields are read back folded once (`Records.RecordTells`).
- Uploader.Upload: manifests are lists here while files are placed; the in-place form of `Add` is modelled by `Edits.Manifest`, whose contract is the function used.
- Uploader.PublishPackage: a local file is its bytes; opening and closing files is not modelled.
- Lock.Acquire: answers of the store and the clock are a given sequence of rounds; the interleaving is in the transition system, and without a bound on attempts the loop is followed only if some round is decisive.
- Concurrent.OldGenerationsStayFetchable: a publisher reads its Release and manifests at one moment and from then on works from memory; lost updates between publishers are possible and not excluded. The Releases found at the start are covered.
- CommandHistory.CommandsKeepIntegrity: commands follow one another, as the lock orders them; uploads that skip their bodies are not among them, and the artifacts of a run fit into 63 bits.
- CommandHistory.CommandKeepsSound: the files of an upload are as `Instance.FileIsGood` leaves them; `StrayPaths` has the ones that do harm.
- Collection.CleanIsRun: names of objects are clean, which `CommandHistory.CommandKeepsSound` keeps; without backslashes their image is a store that `CleanPool` works on (`Collection.ImageIsShelf`).
- Collection.CleanAdmissible: the same.
- Guarantees.CleanIsSafe: the same.
- Consistency.ReleaseDescribesIndexes: is about completed runs; a run cut off between an index and its Release leaves the old entries.
- Commander.Check: the object stored under the prefix itself, which only paths such as `a/..` reach, is no part of the store modelled; looking there finds nothing.
- Commander.Verify: the partial counts returned beside an error are left out.
- Maintenance.CleanPool: is about stores whose keys under the prefix are clean; other keys can only come from outside the program.
- Storage.MemoryStore.Head: the ETag stands for the object information; size, content type, metadata and times are left out.
- Storage.MemoryStore.Put: content type, cache control and metadata are left out.
- Storage.MemoryStore.List: keys without the object information.
- Inspection.HandleMember: the control archive is unpacked by a given function on the whole body.
- Inspection.ReadPackage: decompression and the search in the control tar are one given function from the archive's name and bytes to the control file.
- Package.RecordByteStable: the flag that ignores iterations in dependencies is never set in the repository and is excluded.
- S3 client: credentials, endpoints, ACLs, encryption, error codes and paging; of `Put` the Head and the conditional write are kept, as two steps.
- `Copy` of the stores, `Head` apart from presence and digest, content type, cache control and modification times: no invariant depends on them.
- Signing with GPG and its options: a signer is an answer, two artifacts or a failure.
- gzip, the hash functions, decompressors, tar and JSON: functions of which only the shape of the result is known.
- Wall-clock timers and contexts: a timeout or cancellation is a step that may come at any time.
- Command line, configuration, progress output, file patterns, queries and the environment defaults of new packages.
- Texts outside ASCII and invalid UTF-8.
- Regular expressions are scanners for the matched languages; Go's engine is not part of this model.
