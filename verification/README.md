# A verified model of the ESM and BA2 toolkit

A Dafny model of the parts of the repository where a mistake would be silent: the odds the
leveled-list engine reports, the cache that many processes build and read at once, the set of
databases one process keeps open, the byte formats that are written and read back, and the
clustering behind the patch notes. Check it with `dafny verify dfyconfig.toml`.

Numbers of the program that are rounded (`f64`, `f32`) are `real` here, so every statement
about odds is exact. Fixed-width integers are written out: a field that is cut to 32 bits is
`% U32`, and a value that must fit a field says so.

## How the model is laid out

| files | what they model |
|---|---|
| `RandomProcess`, `Selection`, `SelectionProcess`, `Gates`, `LeveledList`, `DropTable`, `DropRules`, `RealMath` | a leveled list stands for a finite random process (a tree of coin flips). The engine's loops and its recursive walk are methods; what they return is proved to be the probabilities and expectations of that process |
| `Bytes`, `EsmFormat`, `EsmWalk`, `EsmSubrecords` | the plugin's headers, the printers of the synthetic test files, the one descent all walks share, and the subrecord parser |
| `GroupTree`, `GroupTreeInvariant` | the stack machine that folds walk events into an arena of groups |
| `Sorting`, `FormIndex` | the sorted forms table, the type directory and the reverse references, against plain maps |
| `StringTable`, `StringFile` | localisation files, from bytes to a looked-up text |
| `Wildcard`, `NameHash` | the `*` matcher against the meaning of a pattern; the table-driven hash against polynomial long division |
| `SectionFile`, `BuildProtocol`, `BuildStamps` | one cache file, the protocol by which processes and threads build it at most once, and for which state of the plugin a call is answered |
| `Host`, `HostFreshness` | the databases one process has open, shared by many threads; how fresh its answers are |
| `Ba2Format`, `Ba2Blobs`, `Ba2General`, `Dds`, `TextureChunks`, `Ba2Textures` | writing archives of both kinds and reading them back |
| `UnionFind`, `HubRules`, `BundleSplit`, `BundleMerge`, `Bundles`, `ContextIndex` | clustering, splitting and merging of changed records, and gathering context through a reverse index |
| `Wrappers` | `Option` and `Result` |

## What came out

- Every clamp and `min(1.0)` in the drop table is inactive in exact arithmetic, for every list
  graph including cyclic ones: the odds are the probabilities of a random process, so they obey
  the laws of probability.
- In an undisturbed run a cache section is built at most once and everybody gets that one; under
  any crashes, errors and power loss a reader never accepts anything but a finished section, and
  one built for the plugin's stamp as that reader, or whoever filled its cell, read it.
- `merge_same_anchor` and `merge_by_overlap` never merge anything in the pipeline: what they are
  given is a partition, and disjoint groups come out of the first unchanged and of the second,
  under any positive threshold, only put in order. Their documentation speaks of fragments that
  share members or an anchor; no such fragments arise.
- A `Host` that promises to reopen a changed file can answer a call with a state of the file from
  before the call began. That can happen exactly when, at the beginning of the call, some other
  call has opened an older state and the map would still take it.
- The group arena does not keep records that stand outside every group; everything else of a
  printed file comes back.
- Printed subrecords come back exactly when none of them is a four-byte one signed `XXXX`, which
  the parser takes for a size announcement.
- A string table whose kept text reaches 2^32 bytes no longer answers for every id; a printed
  string file never gets there.
- A texture chunk of 2^32 bytes or more is written without complaint and never read back.
- A stored mip count of zero is synthesised as one, so such a texture description does not
  survive its own header.

## Model

| member | source | states |
|---|---|---|
| RandomProcess.BothMissed | esm/src/lvli.rs:795-803 | independent runs miss together: the chances of missing multiply, which is what combining independent contributions to one item relies on |
| RandomProcess.HitsUnion | esm/src/lvli.rs:973-989 | the union bound for any process, from which the chance of anything is at most the sum over items |
| RandomProcess.CopiesAtLeastHits | esm/src/lvli.rs:795-803 | when drops are whole, expected copies are at least the chance of one |
| Selection.MaskWeight | esm/src/lvli.rs:516-526 | one mask's inner loop gives the joint chance of exactly those gates and their number |
| Selection.ComputePoolOdds | esm/src/lvli.rs:512-537 | enumerating all 2^n masks gives each entry its gate's chance times the expected value of one over one plus the number of other passing entries |
| Selection.EntryShareSumAll | esm/src/lvli.rs:515-535 | the shares of all masks sum to the recursive chance of being drawn, for any number of rivals already in |
| Selection.PoolOddsLaw | esm/src/lvli.rs:512-537 | pool odds are within each gate's chance and sum to one minus the chance that all gates fail |
| Selection.CascadeOddsAre | esm/src/lvli.rs:697-708 | first match: an entry's odds are its gate's chance times the chance that every earlier gate failed |
| Selection.ComputeCascadeOdds | esm/src/lvli.rs:697-708 | the running `remaining` loop computes those odds |
| Selection.MeanFieldLaw | esm/src/lvli.rs:542-546 | the approximation stays within each gate's chance and within one in all |
| Selection.ComputeMeanFieldOdds | esm/src/lvli.rs:542-546 | divides by the sum of the gates or by one, whichever is larger |
| Selection.OddsLaw | esm/src/lvli.rs:693-715 | under every model odds are at most the gate; exact pool and first match total one minus the chance that all fail; the mean-field pool at most one |
| Selection.SelectionOdds | esm/src/lvli.rs:693-715 | returns the odds of the model and flags exactly the pools of more than 16 entries as approximate |
| SelectionProcess.ExpectPool | esm/src/lvli.rs:508-537 | rolling all gates and drawing one winner uniformly has the engine's pool odds as its probabilities, for every measure |
| SelectionProcess.ExpectCascade | esm/src/lvli.rs:697-708 | so has the cascade |
| SelectionProcess.ExpectLottery | esm/src/lvli.rs:539-546 | so has one ticket drawn with given odds, which is what the approximation describes |
| SelectionProcess.ExpectSelect | esm/src/lvli.rs:693-715 | under both models that pick one entry, any measure of the selection is the entries' measures weighted by the odds |
| SelectionProcess.MissedUseAll | esm/src/lvli.rs:795-803 | under Use All the chances of missing multiply |
| SelectionProcess.CopiesUseAll | esm/src/lvli.rs:795 | under Use All expected copies add up |
| SelectionProcess.SameSelect | esm/src/lvli.rs:693-715 | entries with the same shares make indistinguishable selections |
| Gates.ReachesAsRolled | esm/src/lvli.rs:470-472 | for every real comparison: "greater than", with or without "or equal", passes as often as an evenly rolled percentage reaches it, to within one roll however finely the rolls are spaced |
| Gates.StaysBelowAsRolled | esm/src/lvli.rs:470-472 | and "less than", with or without "or equal", as often as the roll stays below it |
| Gates.WholePercents | esm/src/lvli.rs:470-472 | for a whole comparison the chance is the share of 0..99 that reach it, or stay below it; outside 0 to 100 it is certain or impossible |
| Gates.UnreadableRow | esm/src/lvli.rs:452-477 | a row that is no random percentage, names no value or compares otherwise passes, or fails under `strict` |
| Gates.OrGroup | esm/src/lvli.rs:488-501 | rows joined by OR pass unless all of them fail; one row alone passes by its own chance |
| Gates.AndSplits | esm/src/lvli.rs:488-501 | a row not joined by OR ends its group, and the chances before and after it multiply |
| Gates.HoldsStep | esm/src/lvli.rs:480-503 | deciding one more row keeps the meaning "every closed OR-group has a passing row" |
| Gates.EntryGateChance | esm/src/lvli.rs:483-504 | the nested group loop returns the chance that independent rolls satisfy every OR-group; its clamp never binds |
| LeveledList.ComputeEligible | esm/src/lvli.rs:651-663 | one entry's target, gate chance, Chance None and quantity, all within their ranges |
| LeveledList.ComputeResolvedList | esm/src/lvli.rs:603-688 | the model, the list's own factor and exactly the entries that qualify at the level, in order |
| LeveledList.ListProper | esm/src/lvli.rs:839-1014 | every list graph, cyclic or not, stands for a process whose flips are probabilities |
| LeveledList.ListWhole | esm/src/lvli.rs:395-403 | when every quantity is at least one, whatever drops drops whole |
| DropRules.ChanceNoneIsARoll | esm/src/lvli.rs:359-378 | Chance None keeps as often as a percentage roll reaches it; without one nothing is lost |
| DropRules.LockedIsAbsent | esm/src/lvli.rs:643-650 | an entry above the level is as good as absent; one at or below it, or without a level, takes part in its place |
| DropRules.LoneEntry | esm/src/lvli.rs:839-970 | in numbers, for a list of one unlocked entry: its chances are the list's Chance None, the gate and its own Chance None multiplied, times its target's, and its copies count by the quantity, where none or 0 means once |
| DropRules.LoneItemTable | esm/src/lvli.rs:1019-1062 | so the table of such a list has these numbers for its item, and no chance for anything else |
| DropRules.LoneEntryWithoutTarget | esm/src/lvli.rs:555-569 | an entry that names nothing, or FormID 0, drops nothing |
| DropRules.TargetYields | esm/src/lvli.rs:879-930 | an item yields itself; a list that is running already, or cannot be fetched, nothing; a list at the depth cap itself; any other what it yields one level deeper |
| DropRules.TwoSureEntries | esm/src/lvli.rs:431-439 | how the flags pick, on two items always ready: use all drops both whatever else is set, else first match the first only, else each every other time |
| DropTable.MergeReaches | esm/src/lvli.rs:932-949 | adding a target's items to the leaves: disjoint chances add without ever meeting the cap, independent ones combine by missing, expectations add and so does their total |
| DropTable.MergeOne | esm/src/lvli.rs:778-803 | one such merge leaves the rest still to be added within the cap |
| DropTable.ReachesOf | esm/src/lvli.rs:906-921 | a child's leaves as a list: same odds for every item, same total |
| DropTable.ProgressFits | esm/src/lvli.rs:796-800 | among entries that exclude each other no item's chance can pass one |
| DropTable.ProgressEnd | esm/src/lvli.rs:862-970 | after the last entry the accumulated leaves and survival are the selection's probabilities |
| DropTable.Projected | esm/src/lvli.rs:973-989 | scaling by the list's factor gives the thinned process, and none of the clamps binds |
| DropTable.Walker.ReachTarget | esm/src/lvli.rs:879-930 | one run of a target: its items, its chance of nothing, its sublist with the list's own odds, whether anything below was cut; the path is restored |
| DropTable.Walker.WalkEntry | esm/src/lvli.rs:862-970 | adds exactly the entry's share, and a row exactly when the entry can drop something |
| DropTable.Walker.WalkNode | esm/src/lvli.rs:839-1014 | the walk ends on every graph and returns the list's probabilities, rows that add up to them, and `truncated` exactly when a pool was approximated or a list was cut at the depth cap |
| DropTable.RowIsMeant | esm/src/lvli.rs:951-962 | what a tree row says: item, chance of anything through it per run of the root, expected copies, and for an entered list its own odds and, one level less of them, its rows |
| DropTable.SkipsIff | esm/src/lvli.rs:862-872 | an entry has no row exactly when it is never selected, never survives its Chance None or names nothing |
| DropTable.SumsAppend | esm/src/lvli.rs:951-962 | appending a row keeps subtotals, leaf sums and conservation in step |
| DropTable.DescribedIsSound | esm/src/lvli.rs:973-1013 | nothing drops with a probability; each item at most as often as anything; anything at most as often as all items together |
| DropTable.DescribedCopies | esm/src/lvli.rs:795-803 | with whole quantities expected copies are at least the chance, for every row |
| DropTable.ListExact | esm/src/lvli.rs:839-1014 | an uncut list has the same odds as the ideal list without depth cap and approximation |
| DropTable.DropTableOf | esm/src/lvli.rs:1019-1062 | the table holds the probabilities of the list's process, the ideal one when not truncated; sound odds; every expanded subtotal is the sum of its entries; past the depth cap the leaves of the tree are the flat rows; root rows sum to one minus `p_nothing` |
| Bytes.LEDigit | esm/src/rkyvcache.rs:621-632 | byte i of a printed number is its digit at 256 to the power i: the least significant byte comes first |
| Bytes.FromLEConcat | esm/src/format.rs:64-79 | read back, what follows k bytes weighs 256 to the power k |
| EsmFormat.RecordHeaderBytes | esm/src/format.rs:64-79 | at which byte of a record header each field lies, for any bytes |
| EsmFormat.GroupHeaderBytes | esm/src/format.rs:103-117 | at which byte of a group header each field lies; a type with the top bit set is negative |
| EsmFormat.SyntheticHeader | esm/src/testkit.rs:34-43 | the header of a synthetic record: version 208, no flags, no stamps |
| EsmFormat.RecordHeaderRoundTrip | esm/src/format.rs:64-79 | a printed record header is read back wherever it stands |
| EsmFormat.GroupHeaderRoundTrip | esm/src/format.rs:103-117 | so is a group header, with its signed type |
| EsmFormat.AppendRecord | esm/src/testkit.rs:34-43 | appends the printed form of a record with no flags and no stamps |
| EsmFormat.Grup | esm/src/testkit.rs:64-74 | the printed form of a group around printed children |
| EsmWalk.WalkContainer | esm/src/reader.rs:249-297 | the cursor loop and its recursion compute the events of the container for any bytes, stopping at an oversized record and failing at an oversized group |
| EsmWalk.WalkFailsOnlyAtGroups | esm/src/reader.rs:249-297 | a walk fails only at a group reaching beyond its container and makes no progress only at a group of size zero |
| EsmWalk.StallsIff | esm/src/reader.rs:253-279 | a walk makes no progress exactly when it reaches a group of size zero |
| EsmWalk.EmptyHeaderStalls | esm/src/reader.rs:253-279 | the concrete 24 bytes on which the source never ends |
| EsmWalk.WalksForest | esm/src/reader.rs:249-297 | walking a printed forest, wherever it stands, emits exactly its events in file order |
| EsmWalk.CutShort | esm/src/reader.rs:253-293 | a container cut off anywhere in its last node: inside a record or a header the walk ends quietly with everything before; inside a group's body it fails at that group and reports nothing of it |
| EsmWalk.SampleWalk | esm/src/reader.rs:249-297 | on literal header bytes, a group of 64 bytes around a record of 16: the three events with their numbers |
| EsmWalk.WalkStructure | esm/src/reader.rs:224-236 | skips the header record and walks the rest |
| EsmWalk.WalkRecords | esm/src/reader.rs:192-218 | the flat stream is the structural walk with the groups left out, and needs a TES4 header |
| EsmWalk.MetasOfEvents | esm/src/reader.rs:186-218 | the records among a forest's events are its pre-order |
| EsmWalk.PrintedFileIsRead | esm/src/reader.rs:192-236 | of a whole printed file the structural walk gives the forest's events and the flat walk its records in pre-order |
| EsmSubrecords.ParseSubrecords | esm/src/reader.rs:312-349 | the loop with its pending size computes the subrecords of any payload |
| EsmSubrecords.SubrecordBytes | esm/src/reader.rs:312-349 | byte by byte, for any payload: signature, size and data, cut where the payload ends; a size of zero yields to an announced one; what an announcement looks like |
| EsmSubrecords.AppendSubrecord | esm/src/testkit.rs:18-22 | appends a subrecord, its size cut to 16 bits |
| EsmSubrecords.SubrecordsRoundTrip | esm/src/reader.rs:312-349 | printed subrecords of any size are read back, large ones through their XXXX announcement |
| EsmSubrecords.SubrecordsRoundTripIff | esm/src/reader.rs:322-346 | they are read back exactly when none is a four-byte XXXX |
| EsmSubrecords.ParsedCost | esm/src/reader.rs:312-349 | parsing never yields more than the bytes can hold, for any payload |
| EsmSubrecords.AnnouncementIsLost | esm/src/reader.rs:322-330 | the concrete failing input |
| GroupTree.TreeBuilder.PushEvent | esm/src/tree.rs:160-210 | one event changes groups, roots, offset map and stack as the fold says |
| GroupTree.BuildTree | esm/src/tree.rs:229-244 | feeding all events gives the fold of the walk |
| GroupTree.EnterEffect | esm/src/tree.rs:162-194 | entering a group appends its entry, links it to the group on top or to the roots, opens it, and leaves the others alone |
| GroupTree.ForestRestored | esm/src/tree.rs:160-210 | from any arena, a forest's events append it: reading its references back gives the forest |
| GroupTree.ForestRoundTrip | esm/src/tree.rs:160-214 | print, walk and fold: the roots read back as the forest's groups with every offset and every record inside, and no group is left open |
| GroupTree.AllKept | esm/src/tree.rs:198-208 | the arena keeps every node exactly when no record stands outside every group |
| GroupTreeInvariant.EnterKeeps | esm/src/tree.rs:162-194 | entering a group keeps the arena well formed: links mutual, children later and one deeper, intervals nested, offset map inverse, stack a path |
| GroupTreeInvariant.LeaveKeeps | esm/src/tree.rs:195-197 | so does leaving one |
| GroupTreeInvariant.RecordKeeps | esm/src/tree.rs:198-208 | so does a record |
| GroupTreeInvariant.WalkKeeps | esm/src/reader.rs:249-297 | after every prefix of the events of any bytes the arena is well formed, and a finished container leaves the same groups open |
| GroupTreeInvariant.FileTreeIsWellFormed | esm/src/tree.rs:229-244 | the same for whole files, ending with no group open |
| FormIndex.InsertRecords | esm/src/index.rs:782-804 | the FormID map holds the last record of every FormID of any event stream |
| FormIndex.LastRecordIs | esm/src/index.rs:782-804 | it is the record as the walk reported it, and no later one has its FormID |
| FormIndex.BuildForms | esm/src/index.rs:782-839 | the sorted table and the type directory hold exactly that map |
| FormIndex.BuildTypeIndex | esm/src/index.rs:679-688 | each type's list is ascending and holds exactly its records |
| FormIndex.GetByFormId | esm/src/index.rs:318-324 | binary search answers as the map does |
| FormIndex.RecordsByType | esm/src/index.rs:448-460 | a type's rows are its FormIDs in order with their records |
| FormIndex.TypesPartition | esm/src/index.rs:679-688 | the type lists partition the indexed FormIDs |
| FormIndex.BuildXref | esm/src/index.rs:607-677 | inverting all references lists, per target, the referencing records in file order |
| FormIndex.AddReferences | esm/src/index.rs:645-673 | one record adds itself once to each other existing target it names |
| FormIndex.ReferencersLaw | esm/src/index.rs:472-484 | a target's list holds r exactly when indexed r references it, r is not the target and the target is indexed or hardcoded; once each when FormIDs are unique |
| StringTable.FromEntries | esm/src/strings.rs:149-164 | keeps of every id its last text, sorted, with cumulative ends cut to 32 bits |
| StringTable.Get | esm/src/strings.rs:178-187 | binary search finds an id's slice or answers none |
| StringTable.CutsTile | esm/src/strings.rs:149-187 | while the text fits 32 bits the slices tile the blob |
| StringTable.TableLaw | esm/src/strings.rs:149-187 | every id answers with its last text exactly when the kept text is below 2^32 bytes; other ids answer none |
| StringTable.HugeTextIsForgotten | esm/src/strings.rs:149-187 | the concrete failing input: one text of 2^32 bytes |
| StringFile.ParseTable | esm/src/strings.rs:67-146 | the parser accepts and refuses as specified, and its table holds the entries that point into the block |
| StringFile.FileHeaderBytes | esm/src/strings.rs:67-95 | the header byte by byte, and what is refused when the index or the block is not all there |
| StringFile.IndexEntryBytes | esm/src/strings.rs:97-143 | an index entry byte by byte: the id, then where the text begins; what points outside is left out |
| StringFile.PrefixedTextBytes | esm/src/strings.rs:120-143 | a prefixed text: the length counts a final zero, which is dropped, and is cut at the end of the block |
| StringFile.UpToZeroLaw | esm/src/strings.rs:110-119 | a zero-terminated text has no zero byte and ends at one or at the end of the block |
| StringFile.FileReadBack | esm/src/strings.rs:67-146 | a printed file lists its entries again in order |
| StringFile.FileRoundTripIff | esm/src/strings.rs:67-146 | exactly, unless a zero-terminated text has a zero byte inside |
| StringFile.PrintedFileAnswers | esm/src/strings.rs:67-187 | lookups in the table read from a printed file give the last text printed for an id, and none for other ids |
| Wildcard.Find | esm/src/wildcard.rs:55-70 | the leftmost occurrence, or that there is none |
| Wildcard.GlobIsSpells | esm/src/wildcard.rs:31-40 | splitting a pattern at its stars keeps its meaning |
| Wildcard.LeftmostIsBest | esm/src/wildcard.rs:55-70 | any occurrence of a middle segment can be traded for the leftmost one |
| Wildcard.MatchSegments | esm/src/wildcard.rs:31-82 | prefix, leftmost middle segments, suffix: true exactly when the text splits into the segments with gaps at the stars |
| Wildcard.WildcardMatchLower | esm/src/wildcard.rs:31-82 | with a star exactly glob matching, without one exactly containment |
| Wildcard.PlainIsStarred | esm/src/wildcard.rs:31-40 | a pattern without stars behaves as the same pattern between two stars |
| Wildcard.StarStar | esm/src/wildcard.rs:41-70 | two neighbouring stars mean one |
| NameHash.BuildTable | ba2/src/hash.rs:11-25 | every slot holds eight places of the division of its index |
| NameHash.BethCrc | ba2/src/hash.rs:30-36 | the table loop computes the remainder of the message times x to the 32, by long division, for every byte string |
| NameHash.ByteAtOnce | ba2/src/hash.rs:30-36 | one table step is eight places of the division |
| NameHash.AbsorbedIsRemainder | ba2/src/hash.rs:30-36 | feeding bytes into the register is dividing the message followed by 32 zeros |
| NameHash.HashLinear | ba2/src/hash.rs:30-36 | linear over messages of one length |
| NameHash.LeadingZeros | ba2/src/hash.rs:30-36 | ignores leading zero bytes |
| NameHash.OwnTail | ba2/src/hash.rs:30-36 | the four bytes that bring the hash to zero are its own, lowest first, and no others |
| NameHash.AppendedHash | ba2/src/hash.rs:30-36 | appending its own little-endian value gives zero |
| NameHash.BurstsAreDetected | ba2/src/hash.rs:30-36 | messages that differ only within four neighbouring bytes never collide |
| NameHash.GeneratorIsStandard | ba2/src/hash.rs:11-25 | the constant is the CRC-32 generator in reflected order, exponent by exponent |
| NameHash.HashOfDigits | ba2/src/hash.rs:30-36 | the hash of the nine digits: starting at zero and without a final inversion |
| SectionFile.HeaderBytes | esm/src/rkyvcache.rs:554-612 | at which byte of a section header each field lies, and the number of each kind |
| SectionFile.ParsesIffBuilt | esm/src/rkyvcache.rs:554-633 | a header parses to a length exactly when its first 56 bytes are those built for that key and length |
| SectionFile.AcceptsIff | esm/src/rkyvcache.rs:328-413 | a file is accepted exactly when it is a finished section for the key, of exactly header and payload length, with room for the root |
| SectionFile.ImageMapsBack | esm/src/rkyvcache.rs:328-413 | what is published maps back |
| SectionFile.ZeroHeaderRefused | esm/src/rkyvcache.rs:725-811 | the placeholder stage is refused under any key, whatever follows it |
| SectionFile.OneKeyPerFile | esm/src/rkyvcache.rs:554-612 | no file is accepted under two keys |
| SectionFile.ExactLength | esm/src/rkyvcache.rs:400-412 | no extension of an accepted file is accepted |
| SectionFile.Directory.WriteSection | esm/src/rkyvcache.rs:725-811 | wherever the sequence stops, the published path holds the old file or the complete new one; an error leaves nothing behind, or the finished temporary file when it was the rename that failed; a crash leaves at most a refused or a finished temporary file |
| BuildProtocol.LocksKept | esm/src/progress.rs:396-461 | mutual exclusion of the plugin's lock and of the in-process build locks survives every step, crashes included |
| BuildProtocol.FilesKept | esm/src/rkyvcache.rs:725-811 | nothing but a finished section is renamed into place or survives a power loss there |
| BuildProtocol.RunsAreSafe | esm/src/rkyvcache.rs:842-956 | every interleaving of any number of calls and processes, with errors, crashes and power loss anywhere, keeps all of it |
| BuildProtocol.MutualExclusion | esm/src/progress.rs:408-461 | two calls are never both between taking the plugin's lock and giving it up |
| BuildProtocol.PublishedIsWhole | esm/src/rkyvcache.rs:725-811 | the published file is absent, the original one, or a finished section that maps back |
| BuildProtocol.PublishIsAtomic | esm/src/rkyvcache.rs:725-811 | it changes only by the lock holder's rename of a finished section, by a deletion, or by a power loss restoring what had settled |
| BuildProtocol.UnfinishedIsRefused | esm/src/rkyvcache.rs:725-811 | a temporary file still being written is refused by every reader |
| BuildProtocol.ReturnsGenuine | esm/src/rkyvcache.rs:842-956 | whatever a call returns was built by somebody or was valid on disk before; for which stamp, the rows of `BuildStamps` say |
| BuildProtocol.NeverStuck | esm/src/rkyvcache.rs:234-250 | while some call is live, some call can move: the two layers of locks cannot deadlock |
| BuildProtocol.QuietRunsAreSteady | esm/src/rkyvcache.rs:914-956 | in a run without faults there is one builder at most, and only while the section is missing |
| BuildProtocol.BuiltAtMostOnce | esm/src/rkyvcache.rs:914-956 | each section is built at most once, and not at all if the file at the start holds it for the plugin's stamp, the program's version and layout, its content accepted |
| BuildProtocol.EverybodyGetsIt | esm/src/rkyvcache.rs:234-250 | no call fails, and every finished call got the section that is on disk for the plugin's stamp |
| BuildStamps.MappedBuiltFor | esm/src/rkyvcache.rs:598-606 | in every reachable state, what a stamp finds on disk was built for that stamp, or was there for it at the start |
| BuildStamps.HeldForItsStamp | esm/src/rkyvcache.rs:898-956 | over every run: a call that has the section in hand has read the plugin's stamp once, and holds a section for that stamp |
| BuildStamps.ReturnsForItsStamp | esm/src/rkyvcache.rs:898-956 | over every run: a call that read the stamp returns a section for it; one that never did was answered by its cell, with a section for the stamp read when the cell was filled |
| BuildStamps.CellsForTheirStamp | esm/src/rkyvcache.rs:898-956 | over every run: a lazy cell holds a section for a stamp read by a call on it, or when its database was opened |
| BuildStamps.BuiltForReadStamps | esm/src/rkyvcache.rs:951-955 | sections are only built for stamps that some call asking for that section read |
| BuildStamps.ReturnsAccepted | esm/src/rkyvcache.rs:916-926 | a section that records its sources is returned only if its content was accepted, or by the call that built it |
| Host.Process.Resolve | esm/src/host.rs:133-180 | the code of an open or a run, with anything the other threads and the file system do between its steps: every step is one of the transition system, an answer was the host's entry for its key at some moment of the call, and that key is the one the call took for its path; left alone, the answer and the new map are determined |
| Host.Process.Close | esm/src/host.rs:193-197 | the code of a close, likewise: it takes the key of its path, or none, and that key is gone when it is done; left alone, nothing else is |
| Host.CallNarrates | esm/src/host.rs:133-197 | how a call can have come into each of its phases, and what that did to the map |
| Host.RunsIdentify | esm/src/host.rs:155-163 | in every run an entry is known by its database's identity: no two entries share one, and what is opened but not stored has its own |
| Host.ReopensOnlyStale | esm/src/host.rs:139-145 | a call that reopens an entry it saw has found the file's signature to differ |
| Host.AnswersWereResident | esm/src/host.rs:133-180 | every answer was the host's entry for its key at some moment of the call |
| Host.KeyStep | esm/src/host.rs:182-187 | a path the host has open is its own key, whatever canonicalising it would answer; any other gets its canonical form; without one a close is done and anything else fails |
| Host.KeysAreTaken | esm/src/host.rs:182-187 | over every run: a call that has a key took it in that way |
| Host.OneFileOneKey | esm/src/host.rs:182-187 | over every run: two paths with one canonical form, neither open under its own spelling when it was looked up, have that form as their key |
| Host.ChangesUnderOwnKey | esm/src/host.rs:133-197 | over every run: whoever changes an entry, a close among them, does so under the key it took for its own path |
| Host.ChangesAreAllowed | esm/src/host.rs:133-197 | over every run: an entry is replaced only by a call that saw that very entry and later found it stale, by what the call opened since; one is added only by a call that may open; one is removed only by a close of its key |
| Host.RunNeverAdds | esm/src/host.rs:83-112 | in an explicit host no run ever adds a key |
| Host.ClosedStaysClosed | esm/src/host.rs:83-93 | once closed, a key stays closed until somebody opens it, whatever is under way |
| Host.RacersShareOneHandle | esm/src/host.rs:159-178 | from any moment at which a key is cold, all who race for it get the one database the host keeps, while nobody changes the file or closes that key |
| HostFreshness.ReuseIsFresh | esm/src/host.rs:139-145 | a database reused because signatures match was read from the file as it is now |
| HostFreshness.LoserOfARaceGetsTheOldFile | esm/src/host.rs:159-178 | a run in which a call is answered with a state of the file older than its own beginning |
| HostFreshness.SafeIsFresh | esm/src/host.rs:133-180 | a call that begins while nobody can still store an older state is answered with the file as it was during the call, whatever happens meanwhile |
| HostFreshness.ThreatMakesStale | esm/src/host.rs:151-178 | from any reachable state in which some call has read an older state and can still store it, a run in which a call begins and is answered with that |
| HostFreshness.AnswerIsFreshIff | esm/src/host.rs:133-180 | at any moment of any run: every call that begins then is sure of the file as it is then or later, exactly when no call for the key has opened an older state and can still store it, which can be seen in the host before the call |
| Ba2Format.HeaderBytes | ba2/src/format.rs:110-143 | at which byte of a file header each field lies |
| Ba2Format.RecordBytes | ba2/src/format.rs:203-238 | at which byte of a general record each field lies |
| Ba2Format.TexRecordBytes | ba2/src/format.rs:262-315 | at which byte of a texture record each field lies when it is read, and which records are refused |
| Ba2Format.TexChunkBytes | ba2/src/format.rs:343-369 | at which byte of a chunk record each field lies |
| Ba2Format.HeaderRoundTrip | ba2/src/format.rs:110-143 | a written file header is read back |
| Ba2Format.RecordRoundTrip | ba2/src/format.rs:203-238 | so is a general record |
| Ba2Format.TexRecordRoundTrip | ba2/src/format.rs:262-315 | so is a texture record |
| Ba2Format.TexRecordFields | ba2/src/format.rs:298-315 | at which byte each field of a texture record lies |
| Ba2Format.TexChunkRoundTrip | ba2/src/format.rs:343-369 | so is a chunk record |
| Ba2Blobs.BlobReadsBackIff | ba2/src/reader.rs:345-358 | any stored piece is read back, wherever it lies, exactly when it is recoverable: it fits its size field and, if compressed, what its record counts of the blob inflates to it within the reader's limit |
| Ba2Blobs.RecoverableWhenFits | ba2/src/reader.rs:345-358 | when the compressed size fits its field, only the 32-bit size and the 64 MiB limit matter |
| Ba2Blobs.CompressesIff | ba2/src/compress.rs:139-154 | a piece is compressed exactly when that is not switched off and its compressed size plus one is at most the length times the ratio |
| Ba2Blobs.ReadBlobLaw | ba2/src/reader.rs:345-358 | whatever a record of any archive says: what is read lies inside, has the declared size, and compressed data is read only up to 64 MiB |
| Ba2Blobs.ShrinksFits | ba2/src/compress.rs:139-154 | with a shrink ratio up to one a compressed piece always fits its size field |
| Ba2Blobs.BlobsTouch | ba2/src/writer.rs:199-309 | no blob reaches into the next, and it ends where the next begins exactly when its stored length fits 32 bits |
| Ba2Blobs.ParseNames | ba2/src/reader.rs:164-181 | the name loop reads length-prefixed names or stops at the end of the data |
| Ba2Blobs.NextName | ba2/src/reader.rs:164-181 | the next name of a table, byte by byte; a table cut short is refused |
| Ba2Blobs.WriteNameTable | ba2/src/writer.rs:175-186 | the table of all names in order |
| Ba2Blobs.NamesReadBack | ba2/src/reader.rs:164-181 | a written name table is read back from any entry on |
| Ba2Blobs.IndexNames | ba2/src/reader.rs:110-160 | a name leads to the last entry that has it |
| Ba2General.FirstPass | ba2/src/writer.rs:199-262 | compresses every file onto one run and remembers where each begins; refuses only what is not acceptable |
| Ba2General.WriteGnrl | ba2/src/writer.rs:199-309 | succeeds exactly on acceptable files and then writes the archive image |
| Ba2General.OpenArchive | ba2/src/reader.rs:110-218 | opens or refuses any data as specified, with last-wins names |
| Ba2General.OpensIff | ba2/src/reader.rs:110-218 | byte by byte, exactly which data opens as a general archive, and how many entries it has |
| Ba2General.WrittenOpens | ba2/src/reader.rs:164-218 | opening what was written gives the normalised names in order, with hashes and blob places |
| Ba2General.ImageHead | ba2/src/writer.rs:263-309 | the first 24 bytes of what is written: magic, version 1, kind, how many files, where the names begin |
| Ba2General.ImageHolds | ba2/src/writer.rs:263-309 | at the place a record gives lies the file's data, compressed exactly when that is worth it, and the record says which |
| Ba2General.WrittenReadsBack | ba2/src/reader.rs:310-342 | reading a name gives the last such file's bytes exactly when they are recoverable; other names are not found |
| Ba2General.BlobsTile | ba2/src/writer.rs:263-309 | blobs lie in order between records and name table without overlap, and without a gap exactly where compressed sizes fit their field |
| Dds.SynthesisedParses | ba2/src/dds.rs:288-519 | what parsing a synthesised header gives, for every supported format and whatever data follows |
| Dds.SynthRoundTripIff | ba2/src/dds.rs:288-519 | the description comes back exactly when it has an area and a mip |
| Dds.ParsedIsSupported | ba2/src/dds.rs:415-519 | whatever parses can be synthesised again, and its mips begin inside the file |
| Dds.MipSizeIs | ba2/src/dds.rs:256-283 | a mip takes what its pixels or 4x4 blocks take in each of the fifteen formats; no other format has a size |
| Dds.ShiftsHalve | ba2/src/dds.rs:256-283 | each level halves a dimension, rounding down, to no less than one |
| Dds.ParsedBytes | ba2/src/dds.rs:415-519 | at which byte of a file that parses each field lies, and what marks a cubemap |
| Dds.PixelBytes | ba2/src/dds.rs:415-519 | at which byte each pixel field lies |
| Dds.CodesName | ba2/src/dds.rs:415-519 | which four-byte code names which format |
| Dds.ExtensionNames | ba2/src/dds.rs:415-519 | where the extension names the format, and when it is missing or out of range |
| Dds.MasksName | ba2/src/dds.rs:415-519 | which masks name which format, and that no others do |
| Dds.SynthesisedRest | ba2/src/dds.rs:288-410 | the fields of a synthesised header that parsing ignores: flags, the size of the top mip, depth, capabilities, the rest of the extension |
| TextureChunks.Dx10ChunkCount | ba2/src/writer.rs:322-336 | the halving loop's count |
| TextureChunks.ChunkCountLaw | ba2/src/writer.rs:313-336 | at most four and at most the mips; grows exactly while the mip is large |
| TextureChunks.ChunksTileTheMips | ba2/src/writer.rs:382-436 | chunks join to the mip data; every one but the last is exactly one mip of at least 512*512 |
| TextureChunks.MipRangesTile | ba2/src/writer.rs:422-434 | mip ranges tile 0 to mip_count - 1 |
| Ba2Textures.PackTexture | ba2/src/writer.rs:382-436 | splits and compresses one texture, or refuses a file too short for its mips |
| Ba2Textures.PackFile | ba2/src/writer.rs:358-456 | one file of pass one: checked, parsed, split and put onto the run |
| Ba2Textures.WriteDx10 | ba2/src/writer.rs:348-496 | succeeds exactly on acceptable files and then writes the archive image |
| Ba2Textures.ParseTextures | ba2/src/reader.rs:224-280 | walks records whose stride depends on their chunk counts |
| Ba2Textures.OpenArchive | ba2/src/reader.rs:110-280 | opens or refuses any data as specified |
| Ba2Textures.OpensIff | ba2/src/reader.rs:110-280 | byte by byte, exactly which data opens as a texture archive |
| Ba2Textures.ReadTexture | ba2/src/reader.rs:310-342 | a fresh header and the chunks, each of its declared size, or nothing |
| Ba2Textures.WrittenOpens | ba2/src/reader.rs:224-280 | opening what was written gives names, hashes, shapes and chunk records in order |
| Ba2Textures.ImageHead | ba2/src/writer.rs:459-496 | the first 24 bytes of what is written |
| Ba2Textures.ImageHolds | ba2/src/writer.rs:459-496 | at the place a chunk record gives lies the chunk's data, compressed exactly when that is worth it; the record says which, and which mips it holds |
| Ba2Textures.TextureReadsBackIff | ba2/src/reader.rs:310-358 | a texture is read back as fresh header and mips exactly when each chunk is recoverable |
| Ba2Textures.WrittenReadsBack | ba2/src/reader.rs:310-358 | reading a name gives the last such texture, under the same condition; other names are not found |
| Ba2Textures.PreparedChunks | ba2/src/writer.rs:362-437 | the chunks of an accepted file are its mips, all of them, in order |
| Ba2Textures.ChunksTile | ba2/src/writer.rs:459-496 | so do all chunks' blobs, without a gap exactly where stored lengths fit 32 bits |
| Ba2Textures.HugeChunkIsLost | ba2/src/writer.rs:407-435 | an accepted file with a chunk of 2^32 bytes or more: the written archive opens, and no read of its name gives the texture back |
| UnionFind.DSU.Find | patch-notes/pn/build_bundles.py:359-365 | the root, with everything on the way pointed straight at it, nothing else moved and no root changed |
| UnionFind.DSU.Union | patch-notes/pn/build_bundles.py:367-376 | joins exactly two classes under the smaller root |
| UnionFind.Cluster | patch-notes/pn/build_bundles.py:379-413 | two records end in one class exactly when a chain of links joins them: edges between records that are no hubs, and shared context nodes that are no hubs |
| HubRules.EdgeJoins | patch-notes/pn/build_bundles.py:392-396 | from the degree maps alone: an edge between two records, each at most at the limit or not listed, puts them in one class |
| HubRules.ContextJoins | patch-notes/pn/build_bundles.py:398-411 | so does a node outside, at most at the limit or not listed, that has an edge with either |
| HubRules.ClassesAreLeast | patch-notes/pn/build_bundles.py:379-413 | and nothing else: no class leads out of a set that neither rule leads out of |
| HubRules.HubContextIsIgnored | patch-notes/pn/build_bundles.py:406-408 | without all edges of a node outside whose degree is above the limit, every record has the same root |
| HubRules.HubRecordIsIgnored | patch-notes/pn/build_bundles.py:395 | nor does dropping the edges between other records and one whose degree is above the limit change any root |
| UnionFind.JoinAround | patch-notes/pn/build_bundles.py:408-411 | joins all records around one context node and nobody else |
| UnionFind.GatherContext | patch-notes/pn/build_bundles.py:398-404 | for every context node exactly the records it shares an edge with |
| UnionFind.RootIsLeast | patch-notes/pn/build_bundles.py:371-376 | a record's root is the least of its class |
| UnionFind.OrderDoesNotMatter | patch-notes/pn/build_bundles.py:371-376 | neither the order of edges nor repeats change any root |
| UnionFind.BuildComponents | patch-notes/pn/build_bundles.py:416-420 | a partition of the records into exactly the classes |
| BundleSplit.InternalAdjacency | patch-notes/pn/build_bundles.py:461-468 | symmetric adjacency over the edges inside the component |
| BundleSplit.MinAnchor | patch-notes/pn/build_bundles.py:497-501 | the least by rank, then FormID |
| BundleSplit.NewOwner | patch-notes/pn/build_bundles.py:503-524 | a record reached in a new layer gets the anchor that minimises distance, rank and FormID |
| BundleSplit.NothingBeyond | patch-notes/pn/build_bundles.py:514-515 | when a layer has no new neighbours everything reachable was found |
| BundleSplit.Search | patch-notes/pn/build_bundles.py:503-524 | finds exactly the reachable records, each with its nearest anchor |
| BundleSplit.OneOwner | patch-notes/pn/build_bundles.py:497-530 | no two anchors can own one record |
| BundleSplit.AnchorOwnsItself | patch-notes/pn/build_bundles.py:503-504 | every anchor owns itself |
| BundleSplit.NearestMeans | patch-notes/pn/build_bundles.py:497-524 | no anchor is nearer to a record than its owner; among the nearest none has a lower rank, and among those none a lower FormID |
| BundleSplit.UnreachedMeans | patch-notes/pn/build_bundles.py:526-530 | a record no anchor reaches goes to the anchor of lowest rank, and of those the lowest FormID |
| BundleSplit.SplitOversized | patch-notes/pn/build_bundles.py:471-534 | small components and those with fewer than two anchors stay whole; others are partitioned into one group per anchor, each holding exactly what its anchor owns |
| BundleMerge.SelectAnchor | patch-notes/pn/build_bundles.py:428-453 | the best record by rank, status, name, degree and lowest FormID |
| BundleMerge.AnchorIsBest | patch-notes/pn/build_bundles.py:428-439 | criterion by criterion: no lower rank, of those no greater status, of those no name unless it has one, of those no more edges, of those no lower FormID |
| BundleMerge.OneAnchor | patch-notes/pn/build_bundles.py:428-439 | there is only one such record |
| BundleMerge.MergeSameAnchor | patch-notes/pn/build_bundles.py:542-554 | groups with one anchor become one, which keeps it; nobody is lost; disjoint groups stay as they are, in order |
| BundleMerge.MergePass | patch-notes/pn/build_bundles.py:571-588 | joins groups only along enough overlap, loses none, and changes something exactly when two groups overlap enough |
| BundleMerge.ApartWhenDisjoint | patch-notes/pn/build_bundles.py:557-559 | disjoint groups never overlap enough under a positive threshold; under any other all do |
| BundleMerge.OverlapMeans | patch-notes/pn/build_bundles.py:557-559 | two groups overlap by a positive threshold exactly when what they share is at least that part of either of them |
| BundleMerge.OrderedByLeast | patch-notes/pn/build_bundles.py:562-570 | the groups stand in the order of their least members |
| BundleMerge.MergeByOverlap | patch-notes/pn/build_bundles.py:562-590 | sweeps from the ordered groups until no two overlap enough; each group is a union of whole groups, and groups already apart are only put in order |
| Bundles.SplitAll | patch-notes/pn/build_bundles.py:759-765 | splitting every component partitions the records |
| Bundles.BuildBundles | patch-notes/pn/build_bundles.py:756-768 | every changed record is in exactly one bundle; under a positive threshold bundles hold only chained records and are exactly the parts of the split; under any other there is one bundle |
| ContextIndex.BuildMemberIncidence | patch-notes/pn/build_bundles.py:610-619 | every record's occurrences, each once, with their positions |
| ContextIndex.Gather | patch-notes/pn/build_bundles.py:672-676 | finds exactly the members' occurrences |
| ContextIndex.SortedIsScan | patch-notes/pn/build_bundles.py:677-680 | sorting what was found by position gives the scan's list |
| ContextIndex.CandidatesByIndex | patch-notes/pn/build_bundles.py:671-686 | the reverse index yields the same candidates, in the same order, as the full scan |

## Left out

Leveled lists:
- `resolve_scalar`, curves and Globals: an entry arrives with its scalars read; the precedence of their sources, the `Base Data` form of old entries and the LVLF flag key are not modelled.
- Notes, editor ids, record types and the order of rows: they do not affect odds. Rows are a map and tree rows stay in entry order.
- An error from the batched fetch, which aborts the whole table; a sublist that cannot be fetched is modelled.
- Rounding of `f64` and `f32`, NaN and the 32-bit width of the pool mask, which at most 16 entries never reach.

Plugin files:
- A group of size zero makes the source loop forever, emitting two events again and again; the model returns `Stalled` with what was emitted up to the first repetition.
- Compressed records, record payloads and the decoding of fields; the reverse references take each record's FormIDs as given.
- `TreeView` paging, group labels and lookups by type: slices and table lookups over the arena.
- UTF-8 and Windows-1252 decoding: texts are bytes, as decoding leaves valid text unchanged. Lower-casing for search is done by the caller of the matcher.

Cache:
- Memory mapping, alignment and the deep check of archived bytes: a payload is accepted by its length and by a predicate that stands for the content check.
- File-system calls are single steps; `PowerLoss` replaces whatever was not forced to disk.
- Heartbeats, progress, the build delegate and environment switches. `clear_cache` is a deletion step that the at-most-once theorem excludes.
- The tree and forms sections are published under one lock; the model follows the single-section build.

Host:
- `AnswerIsFreshIff` and `ReuseIsFresh`: assume that a changed file gets a larger signature than before, because the source compares only size and modification time for equality.
- Operations run on a database after it was resolved, and `Diff`'s second file, which is one more call.

Archives:
- Codecs are a pair of functions with the inverse law, read with the codec they were written with; sniffing the codec, `hash_path`'s splitting of a path and the case folding of `normalize_name` are taken as given functions that satisfy `Lawful`. What a codec makes of a blob cut off at a 32-bit length is left to it.
- Which of several refusals is reported first, extraction to disk, and the temporary files of the two passes.

Bundles:
- Gathering and labelling edges, degrees and record facts: they arrive as maps.
- FormIDs are numbers; the rendered fixed-width strings sort the same way.
- Iteration order of sets and dictionaries is left open, so results hold for every order.
- Ranking and capping of context nodes, titles and the output document.
