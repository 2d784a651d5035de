# APR and APR-util models

A Dafny model of the algorithms in the vendored Apache Portable Runtime sources of this
repository, with proofs. Each file models one component.

| files | component |
|---|---|
| `Fnmatch.dfy`, `FnmatchFacts.dfy` | glob matching (`apr_fnmatch.c`): grammar, declared matches, and the single-pass matcher; what each kind of pattern matches |
| `TableSpec.dfy`, `Table.dfy`, `TableSort.dfy`, `TableCompress.dfy`, `TableOverlap.dfy` | the indexed multimap (`apr_tables.c`) |
| `HashSpec.dfy`, `Hash.dfy`, `HashMerge.dfy` | the chained hash table (`apr_hash.c`) |
| `DigestSpec.dfy`, `Sha1.dfy`, `Sha1Facts.dfy`, `Md4.dfy`, `Md4Facts.dfy` | streaming digests (`apr_sha1.c`, `apr_md4.c`), with known answers |
| `StrNatCmp.dfy`, `NaturalFacts.dfy` | natural-order comparison (`apr_strnatcmp.c`) |
| `Bucket.dfy`, `Ring.dfy`, `BucketOps.dfy`, `BucketRead.dfy`, `BucketMake.dfy`, `BucketRun.dfy` | buckets with reference-counted data on rings (`buckets/*.c`, `apr_ring.h`) |
| `BrigadeSpec.dfy`, `Brigade.dfy`, `BrigadeWrite.dfy`, `BrigadeFlush.dfy`, `BrigadeWritev.dfy`, `BrigadeTidy.dfy`, `BrigadeLine.dfy`, `BrigadeHarm.dfy`, `BrigadePrintf.dfy` | brigades (`apr_brigade.c`) |
| `BucketAlloc.dfy` | the bucket allocator (`apr_buckets_alloc.c`) |
| `FormatSpec.dfy`, `FormatFacts.dfy`, `FormatTexts.dfy`, `Snprintf.dfy` | bounded formatting (`apr_snprintf.c`) |
| `CStrings.dfy`, `Machine.dfy`, `Seqs.dfy` | C strings, the types `apr_size_t` and `int`, and slices of sequences |

Check everything with `dafny verify dfyconfig.toml`.

## How to read it

Code that changes things step by step is a method on a class with the fields of the C
structure, specified by a function on values; the lemmas are about those functions.

*Specification functions.* A method is proved equal to a function, and the function is tied to
what it stands for without its own definition: by laws on plain characters (`FnmatchFacts`,
`NaturalFacts`, `FormatTexts`), by known answers (`Sha1Facts`, `Md4Facts`), or by what a caller
looks up afterwards (`LoopCollects`, `Overridden`).

*Tables.* The class `Table` has the entry array, the slot bits and first and last
positions; `Contents` is the entry list. The methods leave `Set`, `Merge` or `Without` of
the old list. The optimised overlap compares the flags with APR_OVERLAP_TABLES_MERGE
for equality, where the header speaks of a flag; the model follows the code.

*Hash tables.* Nodes are linked on the heap; a ghost `View` says which nodes are in which
chain and among the recycled ones, and the map they stand for. `hash & max` is written as
the remainder by `max + 1`, of which it is proved that it is a power of two. Values are of
any type, so a NULL that a merger returns is a value like any other.

*Digests.* `Valid` says that the state is the fold of the compression function over the
whole blocks of the message so far. The byte order of the host is a parameter.

*Buckets.* The fields of a bucket but for its links are one record `v`. A ghost value of
type `World` shows all live buckets, resources and pipes; `Good(w)` says that it shows the
objects as they are (`Shows`) and that every resource is counted exactly by the buckets
that point to it (`Sound`). Each method takes a world and gives the next one. `Bytes` are
the bytes a bucket stands for, also those still in a file or a pipe; `Content` is the
stream of a brigade. Reads of files and pipes are nondeterministic: they may fail, be
short, and end only where there is nothing more. What each gave is recorded (`Io`), and every
status and every byte that a bucket's read function returns is tied to it (`Answered`); a
whole operation fails exactly when its last read did (`Reported`). A resource has fields for whether it has
been freed and whether a pool cleanup is registered for it; `Shows` ties both to the world,
which also keeps the resources that are gone.

*Line splitting.* `apr_brigade_split_line` writes small buckets into the spare room of the
last bucket of the output. Other buckets can lie there, and then the code overwrites them:
`WriteIsHarmless` and `WriteIsExact` say exactly when a write changes another bucket or
the stream, `GatherIsExact` the stream of both brigades. C leaves memcpy undefined where
the two areas overlap; `Copyable` excludes those that overlap in part, and takes a copy of
memory to itself, as after a split, to change nothing. `SplitLine` is for any queue: its
ghost result is the history of its passes (`Pass`, `IsRun`), from which everything else
follows, also what a harmful copy leaves. No pass does harm when the queue is `Tidy`: no
bucket elsewhere reaches into the spare room, and buckets of the same memory follow each
other in the two brigades as in the memory, as they do after a split. For input in memory
`RunSafe` is the exact condition, computed before the call from the slices and bytes alone:
the run does no harm if and only if it holds (`HarmIsForeseen`). Input that is still in a
file or a pipe is read in pieces of a size nobody knows beforehand. `SplitLineLosesByte` is
a queue where the code does lose a byte.

*Flush functions.* A `Flusher` takes as many buckets off the front of the brigade as it
likes, passes their bytes on, and succeeds or fails as it likes; `sent` is all it has passed
on. What is conserved by every write is `sent` followed by the stream (`Sent`).

*Formatting.* `Format` is the whole output as a function; the formatter writes it through
`INS_CHAR` into a `Sink`, which either stops when it is full (snprintf) or passes the full
buffer on (vprintf). The number printed last that was no quad is part of the state, since
the code tests it in the alternate form of quads. Numbers are built in `NumBuf`, the local
buffer of 512 characters, from its end. Two kinds of directives overrun it (`Overruns`): a
prefix before 511 digits (`LongHex`), and the precision SIZE_MAX, for which `precision + 1`
is 0 (`LongDecimal`); `Plain` excludes exactly those (`BufferSuffices`). Widths and
precisions are read modulo SIZE_MAX + 1. The count of characters is an int; C leaves its
overflow undefined, and the model lets it wrap around, as it also lets `-v` of the most
negative width.

*Characters.* Whether plain char is signed is the constant `CHAR_IS_SIGNED`, without a
value, so that everything holds for both kinds of host.

## Model

| member | source | states |
|---|---|---|
| Fnmatch.Fnmatch | toolchain/apr-1.4.6/strings/apr_fnmatch.c:194-393 | the matcher accepts exactly when the pattern tokens can be laid over the string: some choice of cuts gives every token a piece it stands for. So never going back to an earlier star loses no match |
| FnmatchRuns.RunIsMatch | toolchain/apr-1.4.6/strings/apr_fnmatch.c:194-393 | matching from position to position, as the loops do, is the existence of such cuts |
| FnmatchRuns.FirstFitSuffices | toolchain/apr-1.4.6/strings/apr_fnmatch.c:339-374 | the first place where a chunk between two stars fits is as good as any later one |
| FnmatchRuns.LastChunkIsAnchored | toolchain/apr-1.4.6/strings/apr_fnmatch.c:290-307 | after a star the last chunk of a segment can only sit at the end of the segment |
| FnmatchRuns.StarThenAny | toolchain/apr-1.4.6/strings/apr_fnmatch.c:265-280 | a star followed by ? is ? followed by a star, which lets the scan fold them |
| Fnmatch.FnmatchCh | toolchain/apr-1.4.6/strings/apr_fnmatch.c:74-191 | one token against one character: the verdict of the declared token, and cursors that end past it also after a mismatch, the same for every character |
| Fnmatch.ScanClass | toolchain/apr-1.4.6/strings/apr_fnmatch.c:84-163 | the bracket scan agrees with the grammar of bracket expressions, and rewinds where it is not closed |
| Fnmatch.SkipWilds | toolchain/apr-1.4.6/strings/apr_fnmatch.c:265-280 | a group of stars and question marks is reduced without changing what can match |
| Fnmatch.CountChunk | toolchain/apr-1.4.6/strings/apr_fnmatch.c:287-336 | the number of characters the next chunk takes, and whether it is the last of its segment |
| Fnmatch.MatchChunk | toolchain/apr-1.4.6/strings/apr_fnmatch.c:339-374 | the incremental match of a chunk, after a star or where it stands, decides the rest |
| Fnmatch.MatchSegment | toolchain/apr-1.4.6/strings/apr_fnmatch.c:252-375 | one segment, chunk by chunk |
| Fnmatch.LeadingPeriod | toolchain/apr-1.4.6/strings/apr_fnmatch.c:226-237 | with PERIOD a period that begins a segment is matched by a literal one only |
| FnmatchTest.Test | toolchain/apr-1.4.6/strings/apr_fnmatch.c:405-434 | when the test says no glob, exactly one string matches with flags 0: the pattern without its escapes |
| FnmatchTest.OneStringExactly | toolchain/apr-1.4.6/strings/apr_fnmatch.c:405-434 | for every pattern: exactly one string matches with flags 0 if and only if every token is a literal or a class that accepts exactly one character, so when an answer of glob is right and when it is a false alarm |
| FnmatchTest.TestFalseAlarm | toolchain/apr-1.4.6/strings/apr_fnmatch.c:405-434 | two patterns that are called globs and match one string: "[]", itself, and "[a]" |
| FnmatchTest.GlobFreeIs | toolchain/apr-1.4.6/strings/apr_fnmatch.c:405-434 | the scan finds no glob if and only if there is no `*` or `?`, and no `]` after a `[`, that stands after an even number of backslashes |
| FnmatchFacts.EmptyLaw | toolchain/apr-1.4.6/strings/apr_fnmatch.c:194-393 | the empty pattern matches the empty string only |
| FnmatchFacts.AnyLaw | toolchain/apr-1.4.6/strings/apr_fnmatch.c:164-170 | a question mark first: one character, which is no slash with PATHNAME, and the rest of the pattern matches the rest of the string |
| FnmatchFacts.StarLaw | toolchain/apr-1.4.6/strings/apr_fnmatch.c:239-375 | a star first: some beginning of the string, without a slash with PATHNAME, after which the rest matches |
| FnmatchFacts.CharLaw | toolchain/apr-1.4.6/strings/apr_fnmatch.c:170-191 | any other character first: the same character, or with CASE_BLIND the same letter of the alphabet, and the rest; so a backslash with NOESCAPE or at the end, and a slash with PATHNAME |
| FnmatchFacts.EscapeLaw | toolchain/apr-1.4.6/strings/apr_fnmatch.c:170-191 | a backslash and a character, which is then itself whatever it is |
| FnmatchFacts.UnclosedLaw | toolchain/apr-1.4.6/strings/apr_fnmatch.c:84-163 | a bracket that is not closed is itself |
| FnmatchFacts.SetLaw | toolchain/apr-1.4.6/strings/apr_fnmatch.c:84-163 | "[abc]", "[!abc]" and "[^abc]" first: one character that is one of them, or that is not; with CASE_BLIND as letters; no slash with PATHNAME |
| FnmatchFacts.RangeLaw | toolchain/apr-1.4.6/strings/apr_fnmatch.c:119-144 | "[a-z]", "[!a-z]" and "[^a-z]" first: one character from the lower to the upper end, both included, or none of these; with CASE_BLIND also as small letters |
| FnmatchFacts.RangeExactly | toolchain/apr-1.4.6/strings/apr_fnmatch.c:119-144 | for all bytes: "[lo-hi]" matches c if and only if lo <= c <= hi, and the two negated forms if and only if not |
| FnmatchFacts.BetweenIs | toolchain/apr-1.4.6/strings/apr_fnmatch.c:134-144 | for ASCII: the order of the characters, and for letters with CASE_BLIND the order in the alphabet |
| FnmatchFacts.PeriodLaw | toolchain/apr-1.4.6/strings/apr_fnmatch.c:226-237 | PERIOD changes nothing where no period begins the string, or with PATHNAME a segment |
| FnmatchFacts.LeadingLaw | toolchain/apr-1.4.6/strings/apr_fnmatch.c:226-237 | with PERIOD a string that begins with a period is matched only by a pattern that does, quoted or not |
| FnmatchFacts.AfterLeading | toolchain/apr-1.4.6/strings/apr_fnmatch.c:226-237 | after a leading period the pattern goes on as after any other character; after a slash with PATHNAME as at a beginning |
| TableSpec.CaseEqKeysShareIndex | toolchain/apr-1.4.6/tables/apr_tables.c:298-329 | case-equal keys share slot and checksum, so neither shortcut skips an equal key |
| TableSpec.SetLaws | toolchain/apr-1.4.6/tables/apr_tables.c:492-634 | after a set the key is found with the new value and other keys as before |
| TableSpec.SetAt | toolchain/apr-1.4.6/tables/apr_tables.c:492-634 | a set keeps place and key of the first case-equal entry, takes the value, deletes every later one; without one it appends. A merge changes one value |
| TableSpec.UnsetLaws | toolchain/apr-1.4.6/tables/apr_tables.c:636-688 | after an unset nothing case-equal is found, other keys are as before |
| TableSpec.MergeLaws | toolchain/apr-1.4.6/tables/apr_tables.c:690-775 | a merge makes the value the one found, a comma, a space and the new value, or adds it; other keys are as before |
| TableSpec.LoopCollects | toolchain/apr-1.4.6/tables/apr_tables.c:1083-1235 | after setting or merging all pairs of a list into an empty one, every key of the list is found with its last value, or with all its values in the order of the list, a comma and a space between neighbours; and no other key |
| Tables.HitsInSlot | toolchain/apr-1.4.6/tables/apr_tables.c:463-490 | every entry a lookup must find lies between the first and the last position of its slot and passes the checksum test |
| Tables.Table.constructor | toolchain/apr-1.4.6/tables/apr_tables.c:392-402 | an empty table with a correct index |
| Tables.Table.Lookup | toolchain/apr-1.4.6/tables/apr_tables.c:463-490 | the indexed lookup is the scan for the first case-insensitive match |
| Tables.Table.Reindex | toolchain/apr-1.4.6/tables/apr_tables.c:440-455 | the index is exact: a bit per slot in use, exact first and last positions |
| Tables.Table.Clear | toolchain/apr-1.4.6/tables/apr_tables.c:457-461 | the table is empty, with a correct index |
| Tables.Table.Push | toolchain/apr-1.4.6/tables/apr_tables.c:126-141 | one more row, in a larger array when there is no room |
| Tables.Table.Add | toolchain/apr-1.4.6/tables/apr_tables.c:777-828 | the pair is appended; the index stays exact |
| Tables.Table.Put | toolchain/apr-1.4.6/tables/apr_tables.c:492-634 | the table becomes Set of what it was; the index stays exact |
| Tables.Table.MergeIn | toolchain/apr-1.4.6/tables/apr_tables.c:690-775 | the table becomes Merge of what it was; the index stays exact |
| Tables.Table.Unset | toolchain/apr-1.4.6/tables/apr_tables.c:636-688 | the table becomes the filter that drops every case-equal entry; the index stays exact |
| Tables.Table.RemoveHits | toolchain/apr-1.4.6/tables/apr_tables.c:523-548 | the in-place shift drops exactly the hits and keeps the order of the rest |
| StableSort.StablePermutationPermutes | toolchain/apr-1.4.6/tables/apr_tables.c:989-1081 | a stable arrangement is a permutation |
| TableSort.RankIsCompare | toolchain/apr-1.4.6/tables/apr_tables.c:989-1081 | strcasecmp orders keys by one total order |
| StableSort.PassDoublesRuns | toolchain/apr-1.4.6/tables/apr_tables.c:1010-1078 | a merge pass over sorted runs of length b leaves sorted runs of length 2b, also with a short last block and a leftover |
| StableSort.PassIsStable | toolchain/apr-1.4.6/tables/apr_tables.c:1010-1078 | a merge pass keeps alike elements in order |
| TableSort.FirstPass | toolchain/apr-1.4.6/tables/apr_tables.c:1001-1008 | the first pass sorts pairs in place: it is a pass with runs of one |
| TableSort.MergePass | toolchain/apr-1.4.6/tables/apr_tables.c:1017-1068 | the block loop with its leftover copy is one pass |
| TableSort.Mergesort | toolchain/apr-1.4.6/tables/apr_tables.c:989-1081 | for every length the result is sorted by case-insensitive key, a permutation, and stable |
| CompressSpec.KeptIsLoop | toolchain/apr-1.4.6/tables/apr_tables.c:1083-1188 | collapsing each group of case-equal rows into its first row equals setting (or merging) the rows one after the other into an empty table |
| TableOverlap.ProcessDuplicates | toolchain/apr-1.4.6/tables/apr_tables.c:1117-1172 | after the walk over the sorted rows every row is what its group makes of it, or marked as a hole |
| TableOverlap.CloseHoles | toolchain/apr-1.4.6/tables/apr_tables.c:1174-1185 | the holes close and the order stays |
| TableOverlap.Compress | toolchain/apr-1.4.6/tables/apr_tables.c:1083-1188 | the table becomes the loop of sets (or merges) over its own rows; so a key is found with the last of the values of its rows, or with all of them in their order with ", " between neighbours; the index is rebuilt |
| TableOverlap.ArrayCat | toolchain/apr-1.4.6/tables/apr_tables.c:143-166 | one array after the other, with the room doubled until it suffices |
| TableOverlap.SlotOfCat | toolchain/apr-1.4.6/tables/apr_tables.c:1190-1214 | the slot of a concatenation from the slots of its parts |
| TableOverlap.Cat | toolchain/apr-1.4.6/tables/apr_tables.c:1190-1214 | the rows are appended and the index is exact without rehashing |
| TableOverlap.Overlap | toolchain/apr-1.4.6/tables/apr_tables.c:1216-1235 | concatenation, sort and compaction leave what the loop over b leaves, whenever a has no two case-equal keys; in any case a key is found with the last of the values of its rows in a and then b, or with all of them in this order |
| OverlapSpec.OverlapMergeIsLoop | toolchain/apr-1.4.6/include/apr_tables.h:423-467 | with MERGE the optimised overlap is the loop of mergen if and only if a has no two case-equal keys |
| OverlapSpec.OverlapSetIsLoop | toolchain/apr-1.4.6/include/apr_tables.h:423-467 | with SET it is the loop of setn if and only if every key that occurs twice in a occurs in b |
| OverlapSpec.OverlapOfDistinctIsLoop | toolchain/apr-1.4.6/include/apr_tables.h:423-467 | the case the header has in mind |
| OverlapSpec.OverlapWithDuplicatesDiffers | toolchain/apr-1.4.6/include/apr_tables.h:423-467 | a table for which the two differ |
| HashTables.HashTable.constructor | toolchain/apr-1.4.6/tables/apr_hash.c:96-120 | an empty table that denotes the empty map |
| HashTables.HashTable.Lookup | toolchain/apr-1.4.6/tables/apr_hash.c:339-349 | the lookup of the finite map the chains denote |
| HashTables.HashTable.Store | toolchain/apr-1.4.6/tables/apr_hash.c:351-377 | binds or unbinds the key in the map; chains stay acyclic and disjoint from each other and from the recycled entries, count is the total length, max + 1 a power of two, count <= max |
| HashTables.HashTable.AppendEntry | toolchain/apr-1.4.6/tables/apr_hash.c:286-298 | the new entry goes to the end of its chain |
| HashTables.HashTable.DeleteEntry | toolchain/apr-1.4.6/tables/apr_hash.c:359-366 | the entry leaves its chain and heads the list of recycled entries |
| HashTables.HashTable.ReplaceVal | toolchain/apr-1.4.6/tables/apr_hash.c:367-369 | only the value of the key changes |
| HashTables.HashTable.Expand | toolchain/apr-1.4.6/tables/apr_hash.c:170-185 | every node is relinked into twice as many chains without loss; the map is the same |
| HashTables.HashTable.Next | toolchain/apr-1.4.6/tables/apr_hash.c:127-138 | the next entry still to come, whatever has become of the entries handed out |
| HashTables.WalkStep | toolchain/apr-1.4.6/tables/apr_hash.c:127-138 | each step of a walk hands out the next of those nodes, with the links of the nodes after it as they were |
| HashTables.FlatNodes | toolchain/apr-1.4.6/tables/apr_hash.c:127-153 | the nodes a walk is to hand out are distinct and hold the entries of all chains |
| HashTables.HashTable.Clear | toolchain/apr-1.4.6/tables/apr_hash.c:384-389 | the map is empty, count 0, and every node that was in a chain is among the recycled ones |
| HashTables.HashTable.Walk | toolchain/apr-1.4.6/tables/apr_hash.c:127-153 | a walk on which the current entry is kept or deleted, as may be chosen for each: the nodes visited are those of all chains at the start, each once and in order, and exactly the chosen keys are gone from the map |
| HashTables.HashTable.Relink | toolchain/apr-1.4.6/tables/apr_hash.c:177-182 | a walk on which each current entry is relinked elsewhere visits the same nodes, and links all their entries |
| HashSpec.RebindDenotes | toolchain/apr-1.4.6/tables/apr_hash.c:262-377 | rebinding a key in its chain rebinds it in the map |
| HashSpec.RehashDenotes | toolchain/apr-1.4.6/tables/apr_hash.c:170-185 | relinking all entries into any number of chains denotes the same map |
| HashSpec.TotalIsSize | toolchain/apr-1.4.6/tables/apr_hash.c:351-377 | the total length of the chains is the size of the map |
| HashMerge.HashDefault | toolchain/apr-1.4.6/tables/apr_hash.c:187-245 | times 33 over the bytes of the key, which for a string key ends before the first NUL |
| HashSpec.Times33Append | toolchain/apr-1.4.6/tables/apr_hash.c:187-245 | each byte in turn is added to 33 times what was there, modulo 2^32, so that the hash of a key goes on from that of its beginning |
| HashMerge.UnionSize | toolchain/apr-1.4.6/tables/apr_hash.c:398-494 | the merged map has the union of the keys, and no more than base.count + overlay.count |
| HashMerge.Builder.TakeBase | toolchain/apr-1.4.6/tables/apr_hash.c:447-459 | all of base is copied into the new chains |
| HashMerge.Builder.TakeOverlay | toolchain/apr-1.4.6/tables/apr_hash.c:461-492 | every entry of overlay, hashed under the seed of base, overrides or joins; there is room for every new entry |
| HashMerge.Merge | toolchain/apr-1.4.6/tables/apr_hash.c:398-494 | a well-formed table, also with different seeds, that binds every key of either table: to the value of the table that has it, and where both do, to that of overlay, or to what the merger makes of the values of overlay and base; count is the size of the union |
| DigestSpec.PaddingFills | toolchain/apr-util-1.5.1/crypto/apr_sha1.c:313-336 | the padding ends on a block |
| DigestSpec.FewestZeros | toolchain/apr-util-1.5.1/crypto/apr_sha1.c:322-332 | no padding with the 1 bit and the length that ends on a block is shorter |
| DigestSpec.CountAdds | toolchain/apr-util-1.5.1/crypto/apr_sha1.c:226-230 | the two-word addition with its carry test is the addition of the bit count |
| DigestSpec.BitCount | toolchain/apr-util-1.5.1/crypto/apr_sha1.c:226-230 | the two words together are the number of bits modulo 2^64 |
| DigestSpec.FoldMore | toolchain/apr-util-1.5.1/crypto/apr_sha1.c:231-257 | filling up the remainder compresses one more block of the message |
| Sha1.Context.Init | toolchain/apr-util-1.5.1/crypto/apr_sha1.c:206-216 | the context of the empty message |
| Sha1.Context.MaybeByteReverse | toolchain/apr-util-1.5.1/crypto/apr_sha1.c:182-202 | the host then reads each word most significant byte first, on either byte order |
| Sha1.Context.Transform | toolchain/apr-util-1.5.1/crypto/apr_sha1.c:107-165 | the compression function of section 6.1.2 of FIPS 180-4 |
| Sha1.Context.UpdateBinary | toolchain/apr-util-1.5.1/crypto/apr_sha1.c:220-257 | the message goes on, however it is cut: state is the fold over its whole blocks, local and data its remainder, count_hi:count_lo its bit count |
| Sha1.Context.Final | toolchain/apr-util-1.5.1/crypto/apr_sha1.c:313-345 | the digest of section 6.1 of FIPS 180-4 over the padded message |
| Sha1.HashPieces | toolchain/apr-util-1.5.1/crypto/apr_sha1.c:206-345 | for every way of cutting a message the digest is that of the message |
| Sha1Facts.AbcDigest | toolchain/apr-util-1.5.1/crypto/apr_sha1.c:107-345 | the digest of "abc", from appendix A.1 of FIPS 180-2, byte by byte |
| Sha1Facts.EmptyDigest | toolchain/apr-util-1.5.1/crypto/apr_sha1.c:107-345 | the digest of the empty message, byte by byte |
| Sha1Facts.ConstantsAreRoots | toolchain/apr-util-1.5.1/crypto/apr_sha1.c:69-72 | the constants are the integer parts of 2^30 times the roots of 2, 3, 5 and 10, for twenty rounds each |
| Md4.Context.Init | toolchain/apr-util-1.5.1/crypto/apr_md4.c:113-128 | the context of the empty message |
| Md4.Context.Transform | toolchain/apr-util-1.5.1/crypto/apr_md4.c:295-363 | the three rounds of section 3.4 of RFC 1320 |
| Md4.Encode | toolchain/apr-util-1.5.1/crypto/apr_md4.c:368-381 | words to bytes, least significant first |
| Md4.Decode | toolchain/apr-util-1.5.1/crypto/apr_md4.c:386-396 | bytes to words |
| Md4.EncodedWords | toolchain/apr-util-1.5.1/crypto/apr_md4.c:368-396 | decoding undoes encoding |
| Md4.Context.Update | toolchain/apr-util-1.5.1/crypto/apr_md4.c:159-240 | the message goes on, however it is cut, for every length with which the loop counter does not wrap around (`UpdateExact`) |
| Md4.Context.Final | toolchain/apr-util-1.5.1/crypto/apr_md4.c:245-275 | the digest of RFC 1320 of the message; the context is cleared |
| Md4.HashPieces | toolchain/apr-util-1.5.1/crypto/apr_md4.c:279-292 | for every way of cutting a message the digest is that of the message |
| Md4Facts.AbcDigest | toolchain/apr-util-1.5.1/crypto/apr_md4.c:295-363 | the digest of "abc", from section A.5 of RFC 1320, byte by byte |
| Md4Facts.EmptyDigest | toolchain/apr-util-1.5.1/crypto/apr_md4.c:295-363 | the digest of the empty message, byte by byte |
| Md4.UpdateExact | toolchain/apr-util-1.5.1/crypto/apr_md4.c:163-194 | the 32-bit loop counter of the source ends the loop after the whole blocks, with the length counted right, if and only if it does not wrap around at the last of them |
| StrNatCmp.StrNatCmp0 | toolchain/apr-1.4.6/strings/apr_strnatcmp.c:88-135 | the pointer loop computes the lexicographic comparison of token sequences |
| StrNatCmp.CompareRight | toolchain/apr-1.4.6/strings/apr_strnatcmp.c:36-63 | whole numbers: longest run first, then the first different digit |
| StrNatCmp.CompareLeft | toolchain/apr-1.4.6/strings/apr_strnatcmp.c:66-85 | fractions: the first different digit, then the length |
| StrNatCmp.SkipSpaces | toolchain/apr-1.4.6/strings/apr_strnatcmp.c:97-102 | white space does not change the tokens ahead |
| NaturalOrder.NaturalIsTotalPreorder | toolchain/apr-1.4.6/strings/apr_strnatcmp.c:88-149 | reflexive, antisymmetric in sign and transitive, with or without case folding |
| NaturalOrder.RunsCompareAsNumbers | toolchain/apr-1.4.6/strings/apr_strnatcmp.c:36-63 | runs without a leading zero compare as the numbers they denote |
| NaturalFacts.RunsCompareAsFractions | toolchain/apr-1.4.6/strings/apr_strnatcmp.c:66-85 | runs of which one has a leading zero compare as the decimal fractions with these digits, and by length when those are equal |
| NaturalFacts.CommonFront | toolchain/apr-1.4.6/strings/apr_strnatcmp.c:88-135 | a common beginning does not count, unless it ends within a number |
| NaturalFacts.NumberDecides | toolchain/apr-1.4.6/strings/apr_strnatcmp.c:36-85 | strings that begin with different numbers are in the order of these: as numbers, or with a leading zero as fractions and then by length; equal numbers decide nothing |
| NaturalFacts.CharDecides | toolchain/apr-1.4.6/strings/apr_strnatcmp.c:104-131 | where one of the first characters is no digit and neither is white space, the smaller code comes first |
| NaturalFacts.CharPasses | toolchain/apr-1.4.6/strings/apr_strnatcmp.c:104-131 | two characters of the same code, with case folding the same letter, decide nothing |
| NaturalFacts.SpaceSkipped | toolchain/apr-1.4.6/strings/apr_strnatcmp.c:97-102 | white space in front does not count |
| Rings.SpliceBefore | toolchain/apr-1.4.6/include/apr_ring.h:228-233 | a chain goes in before an element; the ring is one ring again |
| Rings.SpliceAfter | toolchain/apr-1.4.6/include/apr_ring.h:245-250 | a chain goes in after an element |
| Rings.Unsplice | toolchain/apr-1.4.6/include/apr_ring.h:364-369 | the ring closes over what is taken out |
| Rings.Concat | toolchain/apr-1.4.6/include/apr_ring.h:332-339 | the second ring after the first, leaving it empty |
| Rings.Prepend | toolchain/apr-1.4.6/include/apr_ring.h:348-355 | the second ring before the first, leaving it empty |
| Rings.MoveTail | toolchain/apr-1.4.6/include/apr_ring.h:286-369 | the tail of one ring becomes another ring |
| Buckets.WithUserSound | toolchain/apr-util-1.5.1/buckets/apr_buckets_refcount.c:33-42 | a copy counts: every resource is counted exactly by the live buckets that point to it |
| Buckets.WithoutSound | toolchain/apr-util-1.5.1/buckets/apr_buckets_refcount.c:44-49 | a destroy counts down, and the resource goes with its last bucket |
| Buckets.CleanedSound | toolchain/apr-util-1.5.1/buckets/apr_buckets_pool.c:21-43 | a pool cleanup keeps the counts and every byte |
| BucketOps.Copy | toolchain/apr-util-1.5.1/buckets/apr_buckets_simple.c:19-26 | a copy, counted; not implemented for pipes |
| BucketOps.SimpleSplit | toolchain/apr-util-1.5.1/buckets/apr_buckets_simple.c:28-46 | fields and links of the two parts |
| BucketOps.Split | toolchain/apr-util-1.5.1/buckets/apr_buckets_refcount.c:19-31 | two buckets with the bytes of one, counted; no other bucket changes |
| BucketOps.PoolDestroy | toolchain/apr-util-1.5.1/buckets/apr_buckets_pool.c:64-92 | pool data is released with its last user, wherever it is by then, and its cleanup is then no longer registered |
| BucketOps.GoneUnused | toolchain/apr-util-1.5.1/buckets/apr_buckets_refcount.c:44-49 | a resource that was ever made is gone if and only if no live bucket points to it |
| BucketOps.Destroy | toolchain/apr-util-1.5.1/include/apr_buckets.h:985-990 | the bucket goes; the resource is freed exactly when no other bucket points to it |
| BucketRead.HeapMake | toolchain/apr-util-1.5.1/buckets/apr_buckets_heap.c:43-74 | a heap bucket of memory of its own, counted once |
| BucketRead.KeepRest | toolchain/apr-util-1.5.1/buckets/apr_buckets_file.c:128-147 | a file bucket becomes a heap bucket of what was read and a file bucket of the rest; the count of the file is unchanged |
| BucketRead.Finish | toolchain/apr-util-1.5.1/buckets/apr_buckets_file.c:129-150 | a file read to the end of its slice loses a user, and is freed exactly with its last one |
| BucketRead.FileBucketRead | toolchain/apr-util-1.5.1/buckets/apr_buckets_file.c:75-154 | the status and the bytes are those of the one read from the file, of up to 8000 bytes; the bytes are conserved, whatever it gives; an error changes nothing |
| BucketRead.PipeBucketRead | toolchain/apr-util-1.5.1/buckets/apr_buckets_pipe.c:19-76 | what was read and what is still in the pipe are the stream that was there; the status is an error exactly when that of the one read from the pipe is, and success at its end |
| BucketRead.PoolBucketRead | toolchain/apr-util-1.5.1/buckets/apr_buckets_pool.c:45-62 | a bucket whose pool has gone reads as a heap bucket, with the same bytes |
| BucketRead.Read | toolchain/apr-util-1.5.1/include/apr_buckets.h:1073 | every type of bucket: what is read is what the bucket stands for, the rest is linked in after it; it fails exactly when a read from its file or pipe does, with the same status |
| BucketMake.FileMake | toolchain/apr-util-1.5.1/buckets/apr_buckets_file.c:156-173 | a file bucket, counted once |
| BucketMake.PoolMake | toolchain/apr-util-1.5.1/buckets/apr_buckets_pool.c:93-120 | a pool bucket, counted once, with a cleanup registered |
| BucketMake.PlainMake | toolchain/apr-util-1.5.1/buckets/apr_buckets_simple.c:56-107 | immortal and transient buckets |
| BucketMake.PipeMake | toolchain/apr-util-1.5.1/buckets/apr_buckets_pipe.c:78-99 | a pipe bucket stands for all that is to come out of the pipe |
| BucketMake.TransientSetaside | toolchain/apr-util-1.5.1/buckets/apr_buckets_simple.c:89-96 | a transient bucket becomes a heap bucket with the same bytes |
| BucketMake.PoolCleanup | toolchain/apr-util-1.5.1/buckets/apr_buckets_pool.c:21-43 | no bucket is the wiser: same buckets, same bytes |
| BucketRun.Do | toolchain/apr-util-1.5.1/buckets/apr_buckets_refcount.c:19-64 | any one operation keeps every count exact and does to the stream what it says |
| BucketRun.Run | toolchain/apr-util-1.5.1/buckets/apr_buckets_refcount.c:19-64 | over every script of operations: in every state each resource is counted exactly, none that is in use is freed, each step does to the stream what it says, and after a cleanup every resource ever made has been freed, with no pool cleanup left registered |
| BucketRun.NothingLeft | toolchain/apr-util-1.5.1/buckets/apr_buckets_refcount.c:44-49 | where there are no buckets there are no resources |
| Brigades.Brigade.constructor | toolchain/apr-util-1.5.1/buckets/apr_brigade.c:56-69 | an empty ring |
| Brigades.Brigade.SplitItem | toolchain/apr-util-1.5.1/include/apr_buckets.h:1093 | a split inside a brigade: the stream is the same |
| Brigades.Brigade.ReadItem | toolchain/apr-util-1.5.1/include/apr_buckets.h:1073 | a read inside a brigade: the stream is the same and less of it is ahead |
| Brigades.Brigade.Partition | toolchain/apr-util-1.5.1/buckets/apr_brigade.c:104-188 | the stream never changes; on success the buckets before the returned one are of `point` bytes; when the brigade is too short no length is unknown and the sum is less; an error is that of the last read, the only one that failed, and names the bucket |
| Brigades.LengthsAreBytes | toolchain/apr-util-1.5.1/buckets/apr_brigade.c:104-188 | known lengths are the numbers of bytes, where no file is shorter than its slice |
| Brigades.PartitionPoint | toolchain/apr-util-1.5.1/buckets/apr_brigade.c:104-188 | on success the stream is cut exactly at `point`; when incomplete the stream is shorter |
| Brigades.Brigade.Cleanup | toolchain/apr-util-1.5.1/buckets/apr_brigade.c:37-48 | every bucket of the brigade is destroyed, and only those |
| Brigades.Brigade.SplitEx | toolchain/apr-util-1.5.1/buckets/apr_brigade.c:71-96 | two well-formed rings whose streams make up the original |
| BrigadeWrite.WriteIsHarmless | toolchain/apr-util-1.5.1/buckets/apr_brigade.c:462-467 | the memcpy leaves another bucket as it was if and only if it writes what is there already wherever that bucket reaches |
| BrigadeWrite.WriteIsExact | toolchain/apr-util-1.5.1/buckets/apr_brigade.c:462-467 | the write adds its bytes to the stream if and only if it is harmless to every other bucket of the brigade; it adds as many in any case |
| BrigadeWrite.Remaining | toolchain/apr-util-1.5.1/buckets/apr_brigade.c:421-431 | the room in the last bucket |
| BrigadeWrite.Write | toolchain/apr-util-1.5.1/buckets/apr_brigade.c:416-468 | with and without a flush function: the bytes are at the end of the stream and no other live bucket has changed, when a write that fits is harmless; without room they go into a heap bucket of their own, or in a transient one to the flush function. Also where it does harm every bucket has exactly the bytes that the memcpy leaves it |
| BrigadeFlush.Flush | toolchain/apr-util-1.5.1/buckets/apr_brigade.c:436-441 | a flush function takes any number of buckets off the front, passes their bytes on in order and leaves the rest; it may fail |
| BrigadeFlush.WriteOut | toolchain/apr-util-1.5.1/buckets/apr_brigade.c:416-468 | what was passed on before, the stream and the bytes written are what has been passed on afterwards and the stream then, whatever the flush function takes and also when it fails |
| BrigadeFlush.SentFlushed | toolchain/apr-util-1.5.1/buckets/apr_brigade.c:436-441 | a flush neither adds nor loses bytes: those passed on and those left are the stream there was |
| BrigadeWritev.WriteV | toolchain/apr-util-1.5.1/buckets/apr_brigade.c:470-587 | all pieces, in order, come after the stream, of which a flush function may have passed some on, and no other live bucket has changed, when what goes into the last bucket does no harm; when the flush between the pieces fails, those that fitted do, and only those. Much data goes into buckets of its own, up to 8000 bytes take one more bucket at most |
| BrigadeWritev.WriteMuch | toolchain/apr-util-1.5.1/buckets/apr_brigade.c:488-510 | more than 8000 bytes: a bucket for each piece, then one flush, whose answer is returned |
| BrigadeWritev.WriteHeap | toolchain/apr-util-1.5.1/buckets/apr_brigade.c:514-569 | the pieces that fit go into the last bucket; only when some do not, a flush, and after it the rest in a new buffer |
| BrigadeWritev.CopyFit | toolchain/apr-util-1.5.1/buckets/apr_brigade.c:538-553 | the leading pieces that fit one after the other are in the room of the bucket, which grows by their length at the end |
| BrigadeWritev.FitLength | toolchain/apr-util-1.5.1/buckets/apr_brigade.c:524-553 | these pieces never take more than the room, and are all pieces if and only if those have room together |
| BrigadeWritev.WriteApart | toolchain/apr-util-1.5.1/buckets/apr_brigade.c:489-510 | each piece in a bucket of its own, transient for a flush function and heap otherwise |
| BrigadeWritev.NewBuffer | toolchain/apr-util-1.5.1/buckets/apr_brigade.c:572-585 | the pieces left over go into one new buffer |
| BrigadeTidy.TidyIsSafe | toolchain/apr-util-1.5.1/buckets/apr_brigade.c:333-345 | while buckets of the same memory follow each other as in the memory, gathering the next bucket harms none |
| BrigadeTidy.TidyRead | toolchain/apr-util-1.5.1/buckets/apr_brigade.c:318-319 | a read keeps this order |
| BrigadeTidy.TidyTail | toolchain/apr-util-1.5.1/buckets/apr_brigade.c:330-336 | moving a bucket keeps it |
| BrigadeTidy.TidyGathered | toolchain/apr-util-1.5.1/buckets/apr_brigade.c:337-345 | gathering a bucket keeps it |
| BrigadeLine.TakeLine | toolchain/apr-util-1.5.1/buckets/apr_brigade.c:325-331 | the bytes up to the line feed move, and only those |
| BrigadeLine.GatherFirst | toolchain/apr-util-1.5.1/buckets/apr_brigade.c:337-345 | the first bucket goes, and its bytes are at the end of the output when writing them is harmless, as it is in an order that is tidy |
| BrigadeLine.GatherIsExact | toolchain/apr-util-1.5.1/buckets/apr_brigade.c:337-345 | where the memory copied from and the memory copied to are the same or apart, this step keeps the stream of both brigades if and only if the write is harmless to the other buckets in them |
| BrigadeLine.SplitLine | toolchain/apr-util-1.5.1/buckets/apr_brigade.c:304-354 | the passes of the loop, each with what it reads, moves or copies and with the exact bytes of every bucket afterwards, also where a copy does harm; they follow each other from the call to the return and stop where the loop does. When none does harm the stream of both brigades together is unchanged and what moves is the first line of the input, or a part of it of at least `maxbytes` bytes; after an error, which is that of the last read and of no other, what has moved has no line feed. From a tidy order none does harm |
| BrigadeLine.FirstHarm | toolchain/apr-util-1.5.1/buckets/apr_brigade.c:304-354 | the stream is kept up to the first pass that does harm, which is found |
| BrigadeLine.HarmIsReal | toolchain/apr-util-1.5.1/buckets/apr_brigade.c:337-345 | a pass that is said to do harm copies between areas that overlap in part, or leaves a bucket other than the two with other bytes |
| BrigadeHarm.HarmIsForeseen | toolchain/apr-util-1.5.1/buckets/apr_brigade.c:304-354 | for input whose data is in memory: no pass does harm if and only if none does on paper, which is computed from the slices and bytes before the call |
| BrigadeHarm.PassIsSafe | toolchain/apr-util-1.5.1/buckets/apr_brigade.c:318-345 | one pass is without harm if and only if it is on paper, and then the paper shows the buckets as they are after it |
| BrigadeHarm.CopySafeIs | toolchain/apr-util-1.5.1/buckets/apr_brigade.c:337-345 | a copy is harmless in a state if and only if it is on paper |
| BrigadeLine.SplitLineLosesByte | toolchain/apr-util-1.5.1/buckets/apr_brigade.c:304-354 | a heap bucket of 4000 bytes split after 3000, with one byte put in between: the counts are right, the order is not tidy, and the byte is written over the first one of the second part |
| BrigadeLine.LineIsFirst | toolchain/apr-util-1.5.1/buckets/apr_brigade.c:304-354 | bytes with no line feed but at their end are the first line of the stream they begin, or a part of it |
| BrigadeLine.FirstLineOfText | toolchain/apr-util-1.5.1/buckets/apr_brigade.c:304-354 | the first line of a text ends with its first newline |
| BrigadeLine.SmallIsGathered | toolchain/apr-util-1.5.1/buckets/apr_brigade.c:332-345 | data of more than 2000 bytes moves with its bucket, up to 2000 bytes are copied and their bucket is destroyed |
| BrigadeLine.MovedFrom | toolchain/apr-util-1.5.1/buckets/apr_brigade.c:304-354 | what has moved is what is missing at the beginning of the input |
| BrigadePrintf.VPrintf | toolchain/apr-util-1.5.1/buckets/apr_brigade.c:656-705 | all of the formatted output comes after the stream, of which a flush function may have passed some on between the buffers, and no other bucket changes, when nobody else is in the room at the end, which stays so; when -1 is returned, after a failed flush or a count that comes out as -1, the full buffers written so far are a beginning of the output |
| BrigadePrintf.TailStaysClear | toolchain/apr-util-1.5.1/buckets/apr_brigade.c:656-678 | writing keeps the room at the end free of other buckets |
| BucketAlloc.Allocator.constructor | toolchain/apr-util-1.5.1/buckets/apr_buckets_alloc.c:81-99 | an empty list at the beginning of its first block |
| BucketAlloc.Allocator.Alloc | toolchain/apr-util-1.5.1/buckets/apr_buckets_alloc.c:116-158 | a region that was not in use, recycled if possible, of the requested size if and only if the sum with the header does not wrap around |
| BucketAlloc.Allocator.Free | toolchain/apr-util-1.5.1/buckets/apr_buckets_alloc.c:180-193 | a small node heads the free list; a large one is released, and nothing else is in its memory node |
| BucketAlloc.Allocator.Destroy | toolchain/apr-util-1.5.1/buckets/apr_buckets_alloc.c:101-114 | all blocks are released, and no large node with them |
| BucketAlloc.Allocator.Regions | toolchain/apr-util-1.5.1/buckets/apr_buckets_alloc.c:116-193 | regions in use are inside their memory nodes and apart from each other, from free ones and from the list |
| Snprintf.AprSnprintf | toolchain/apr-1.4.6/strings/apr_snprintf.c:1356-1385 | the first min(n, len - 1) characters of the unbounded output of length n, a NUL, nothing beyond; it returns min(n, len - 1), or n when len is 0, if and only if that number is an int |
| Snprintf.VFormatter | toolchain/apr-1.4.6/strings/apr_snprintf.c:683-1344 | the output is the unbounded text, and the count its length as an int; or the output is a proper beginning of it that fills the buffer |
| Snprintf.Sink.InsChar | toolchain/apr-1.4.6/strings/apr_snprintf.c:245-258 | one character is written, after passing a full buffer on; or the output stops |
| Snprintf.Sink.PrintField | toolchain/apr-1.4.6/strings/apr_snprintf.c:1311-1337 | prefix, padding and text make up the field |
| Snprintf.ReadDirective | toolchain/apr-1.4.6/strings/apr_snprintf.c:741-856 | flags, width, precision and length modifier as the grammar of directives says, with numbers modulo SIZE_MAX + 1 and the width of the most negative argument as `-v` makes it |
| Snprintf.ConvertArg | toolchain/apr-1.4.6/strings/apr_snprintf.c:872-1309 | the text of the conversion, for integers, strings, characters, the percent sign and unknown conversions; numbers are built inside their buffer, with a place left for the sign |
| Snprintf.PowerDigits | toolchain/apr-1.4.6/strings/apr_snprintf.c:920-968 | octal and hexadecimal numbers with precision and prefix are built inside the buffer |
| Snprintf.IntegerDigits | toolchain/apr-1.4.6/strings/apr_snprintf.c:872-905 | decimal numbers with precision are built inside the buffer |
| Snprintf.Conv10 | toolchain/apr-1.4.6/strings/apr_snprintf.c:330-371 | the digits of the magnitude, also of the most negative number |
| Snprintf.Conv10Quad | toolchain/apr-1.4.6/strings/apr_snprintf.c:373-423 | the same for 64 bits, by way of 32 bits where they suffice |
| Snprintf.ConvP2 | toolchain/apr-1.4.6/strings/apr_snprintf.c:616-655 | the digits to base 8 or 16 |
| Snprintf.FixPrecision | toolchain/apr-1.4.6/strings/apr_snprintf.c:280-290 | zeros before the digits up to the precision, but one place of the buffer stays free; the sum in the test wraps around, so the greatest precision is excluded |
| FormatFacts.BufferSuffices | toolchain/apr-1.4.6/strings/apr_snprintf.c:872-968 | a number with its sign or prefix has room in the buffer of 512 characters if and only if its precision is not the greatest apr_size_t, and it is not a hexadecimal one in the alternate form with its prefix and a precision of 511 or more |
| FormatFacts.LongHex | toolchain/apr-1.4.6/strings/apr_snprintf.c:963-967 | "%#.511x" with 1 needs one character more than there are |
| FormatFacts.LongDecimal | toolchain/apr-1.4.6/strings/apr_snprintf.c:262-290 | with the greatest apr_size_t as precision every number takes that many characters |
| FormatFacts.PrecisionRead | toolchain/apr-1.4.6/strings/apr_snprintf.c:262-268 | the digits of n after the period are read as n modulo SIZE_MAX + 1 |
| FormatFacts.TooMany | toolchain/apr-1.4.6/strings/apr_snprintf.c:1356-1385 | "%2147483648d" makes one character more than an int can count |
| FormatFacts.DigitsDenote | toolchain/apr-1.4.6/strings/apr_snprintf.c:330-423 | the digits denote the number and have no leading zero |
| FormatFacts.DigitsUnique | toolchain/apr-1.4.6/strings/apr_snprintf.c:330-655 | they are the only such digits |
| FormatFacts.FieldIsWide | toolchain/apr-1.4.6/strings/apr_snprintf.c:1311-1337 | a field is as wide as its width or its text |
| FormatFacts.IntegerReadsBack | toolchain/apr-1.4.6/strings/apr_snprintf.c:892-918 | a printed integer reads back as itself if and only if it is not padded with zeros on the right, or is 0 |
| FormatFacts.HexPrefix | toolchain/apr-1.4.6/strings/apr_snprintf.c:944-967 | the prefix of the alternate form is there exactly for numbers other than 0, if and only if it is no quad or the last smaller number agrees with it |
| FormatTexts.StringText | toolchain/apr-1.4.6/strings/apr_snprintf.c:970-1010 | "%s" prints the string, and "(null)" for a null pointer |
| FormatTexts.CutText | toolchain/apr-1.4.6/strings/apr_snprintf.c:970-1010 | "%.Ns" prints at most N characters of it, for every N up to the greatest apr_size_t |
| FormatTexts.CharText | toolchain/apr-1.4.6/strings/apr_snprintf.c:1077-1082 | "%c" prints the character |
| FormatTexts.PercentText | toolchain/apr-1.4.6/strings/apr_snprintf.c:1085-1089 | "%%" prints a percent sign |
| FormatTexts.UnknownText | toolchain/apr-1.4.6/strings/apr_snprintf.c:1301-1309 | a conversion that there is not is printed with its percent sign |
| FormatTexts.IntegerText | toolchain/apr-1.4.6/strings/apr_snprintf.c:892-918 | "%d" prints a minus sign for negative numbers and the digits; "%+d" a plus sign and "% d" a space for others; and so with "i" |
| FormatTexts.UnsignedText | toolchain/apr-1.4.6/strings/apr_snprintf.c:872-968 | "%u", "%o", "%x" and "%X" print the digits to base 10, 8 and 16 |
| FormatTexts.PrefixText | toolchain/apr-1.4.6/strings/apr_snprintf.c:920-968 | "%#o" prints a zero in front, "%#x" and "%#X" a zero and the letter, but for 0 |
| FormatTexts.PreciseText | toolchain/apr-1.4.6/strings/apr_snprintf.c:892-918 | "%.Nd" prints zeros after the sign up to N digits, but no more than 511 digits in all |
| FormatTexts.FieldText | toolchain/apr-1.4.6/strings/apr_snprintf.c:1311-1337 | "%Nd", "%-Nd" and "%0Nd" fill up to N characters with spaces in front, spaces behind, and zeros after the sign |
| FormatTexts.SizedText | toolchain/apr-1.4.6/strings/apr_snprintf.c:892-905 | "%hd", "%ld" and "%qd" print the argument as a number of 16, 32 and 64 bits |
| FormatTexts.SizedIs | toolchain/apr-1.4.6/strings/apr_snprintf.c:872-905 | that number is the only one in its range that differs from the argument by a multiple of 2^16, 2^32 or 2^64 |

## Left out

- BrigadeFlush.Flush: a flush function that adds buckets, or takes others than the first ones, or keeps buckets instead of passing their bytes on and deleting them.
- BrigadeLine.SplitLine: a copy between areas that overlap in part, which C leaves undefined, has the effect of a copy through other memory; such a pass counts as harmful, and nothing that is said of runs without harm depends on it.
- BrigadeHarm.HarmIsForeseen: for input in files and pipes, where the sizes of the reads decide, the condition before the call is `Tidy`, which is enough but not needed.
- Brigades.Brigade.Partition: the sum on success is of length fields, which are the bytes where no file is shorter than its slice (`PartitionPoint`).
- BrigadePrintf.VPrintf: the full buffers are written to the brigade in order after formatting, not in the middle of it; the formatter cannot tell, but for the buffers it would not have filled after a failed flush.
- Snprintf.VFormatter: floating point, %n and the %p extensions are excluded by `Plain`, and so are directives whose number overruns its buffer; a missing argument, or one of another type, reads as 0 or a null string; where the int count overflows, which C leaves undefined, it wraps around.
- Md4.Context.Update: where the loop counter wraps around the loop does not end with the input; `NoWrap` excludes exactly those calls. Translation is left out.
- BucketRead.FileBucketRead: memory mapping, reopening of files shared between threads and the setaside of files are left out.
- HashTables.HashTable.Next: the iterator is a value and not the one inside the table; `count` and `max` do not wrap around.
- Tables.Table.Put: set and setn, merge and mergen, add and addn differ in who owns the strings only, and are one operation each on values.
- BucketAlloc.Allocator.Alloc: the underlying allocator always succeeds, with memory apart from all other.
- Memory is not modelled byte by byte: heap and pool data are sequences owned by the resource, transient and immortal data are fixed values. So a transient bucket never points into a heap bucket.
- The locale is the single-byte C locale; EBCDIC and character translation are left out.
- `apr_table_copy`, `clone`, `overlay`, `do`, and the array functions other than push and cat: easy, or they share storage.
- `apr_hash_copy`, `overlay`, `do`: like the loops that are modelled.
- `apr_brigade_flatten`, `pflatten`, `to_iovec`, `putc`, `vputstrs`, `insert_file`: easy members, or loops over members that are modelled. `apr_brigade_puts` does not take the start of the last bucket into account.
- Mmap, socket, end-of-stream and flush buckets, other than as metadata.
- `apr_sha1_base64`, `apr_match_glob`, the crypto wrappers, and the code in `src`.
