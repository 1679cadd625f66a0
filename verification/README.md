# Verified models of the reconnoiter broker core

This project models the parts of the reconnoiter broker (`noitd`) whose behaviour is carried by
state and arithmetic rather than by I/O, and proves their properties. It has five parts.

1. **Metric names and tags** (`Base64`, `TagCodec`, `TagReplace`, `TagParse`, `TagOrder`, `TagPrint`,
   `TagExamples`, `NameClean`, `MetricName`, `MetricBlocks`, `MetricLaws`, `MetricPlain`, `TagCompact`, `TagsetText`): the tag codec,
   the replacement of over-long tags, parsing, in-place cleaning and squashing, and canonical names.
2. **Cluster replication** (`ClusterLog`, `ClusterChannel`, `ClusterLink`, `Cluster`, `ClusterLaws`,
   `ClusterDelete`, `ClusterReturn`, `ClusterPurge`, `ClusterQuiet`, `ClusterRace`, `ClusterExamples`): changelogs, batched pulls and acknowledgements, and the protocol
   of N nodes as a step relation with an invariant over every run.
3. **The LMDB check store** (`LmdbKey`, `LmdbScan`, `LmdbStore`, `LmdbCheck`, `LmdbResize`): byte keys, prefix
   scans, replacement of one check's keys through aborted and retried transactions, and map growth by
   racing threads.
4. **Filter sets** (`FilterRule`, `FilterApply`, `FilterMeaning`, `FilterLaws`, `FilterRepeat`, `FilterCompile`,
   `FilterThreads`, `FilterRecord`, `FilterPrint`, `FilterLoad`): the rule scan with jumps and self-filling
   tables, tables shared by threads, and the two routes from XML to memory.
5. **The check scheduler** (`ScheduleSlots`, `ScheduleTime`, `ScheduleLaws`, `ScheduleDrift`): slot tables,
   the choice of a slot, and the grid of firing times.

`Options` and `Bytes` hold shared definitions. Code that works by changing things is modelled by
methods and classes, and each is proved against a function; the laws are lemmas about those functions
and about runs. Code that the broker does not contain is a parameter: SHA-1, `qsort`, `strtoll`,
regular expressions and tag searches, the clock, random offsets, the moments at which a map is full,
and what other writers do meanwhile. Base 64 is defined from section 4 of RFC 4648.
Nothing here was executed.

Where a property fails for some inputs, the exact condition is proved and an example given:

- A plain tag part that starts with `b"` is printed as it is and then read as base 64 (`PartRoundTrip`, `TagRoundTrip`, `AmbiguousExample`). Its text can nevertheless be a fixed point
  (`PartTextFixedIff`, `FixedTextExample`).
- An over-long tag with a plain key of exactly 254 bytes and a plain value of at most one byte is
  dropped instead of shortened (`ReplacementFits`, `DroppedExample`).
- An edit of a held check with a lower or a negative sequence takes the check out of the registry. While
  a changelog still mentions the check, its entry can then be acknowledged without having been delivered
  (`EditKeepsAnnouncedIff`, `LostDelivery`). Every other step keeps the delivery guarantee.
- During an edit the check is out of the registry for a while, and the change is marked before the new
  check is put in. A request that is served meanwhile is answered in full if and only if it reaches no
  entry of the check that the peer has not heard (`ServedDuringEditIff`).
- A check that was purged can come back without any edit. It can exactly when some link still supplies it
  and a route of lower nodes leads on (`RisesIff`, `PurgedComesBack`); nodes that may purge the check do not
  block the route, because no purge takes a supply away (`ReturnsIff`, `PurgeKeepsSupply`). Without a
  supply the check stays gone (`StaysGone`).
- The keys of a check are read before its write transaction begins; a key that another writer adds in
  between is left behind (`AppliedReplacesIff`, `RaceLeavesKey`).
- A request without a seq value takes the sequence of a check out of the database, so that it starts again
  from zero; with one the sequence never goes down (`SeqKeptIff`, `SeqNeverFalls`).
- A table with a negative automatic limit is emptied by a flush and never filled again
  (`VisitAgainIff`, `NegativeLimitForgets`).
- A table stays within its limit when applications follow each other (`TablesBounded`). The size is
  tested apart from the insertion, so overlapping threads can exceed the limit, by at most one less than
  their number, and that many is reached (`SharedBounded`, `SharedBoundReached`).
- The two routes for filter sets differ for negative limits, negative periods, and entries of which
  none can be read (`RuleRouteIff`, `RoutesDiffer`).
- A rule that adds a measurement tag without a category does not survive being printed, and an empty
  category becomes a missing one (`RulesReprintIff`, `ReprintGives`, `LostTarget`).
- Uncounting a check undoes its counting, whatever the tables and the clock, if and only if its period is
  a whole number of minutes (`UncountUndoesIff`, `DriftExists`, `SevenSecondsDrift`).
- The documented guarantee of priority scheduling holds exactly up to a timeout of fifty seconds
  (`RoomForTimeoutIff`).

The growth of the LMDB map adds the remainder by the page size instead of rounding up, which gives whole
pages only for some sizes (`GrowIsWholePagesIff`); a map that is opened at 64 MiB only doubles and always
has whole pages (`SizesDouble`, `MapIsWholePages`).

In two places the code and its comments disagree and the model follows the code: a sequence is refused
when it is not newer than the stored one, where the comment at src/noit_check_lmdb.c:536 says the
opposite, and the millisecond remainder of a flush period is stored as microseconds
(src/noit_filters.c:369-370).

## Model

| member | source | states |
|---|---|---|
| Base64.RoundTrip | src/noit_metric.c:392-420 | base 64 text, as section 4 of RFC 4648 defines it, decodes to the bytes it was made from, for all bytes |
| Base64.AlphabetIs | src/noit_metric.c:273-301 | a byte decodes exactly when it is a symbol of the alphabet, and the admitted bytes are these and the pad |
| Base64.ShortVectors | src/noit_metric.c:392-420 | the padded test vectors of section 10 of RFC 4648 |
| Base64.WholeVectors | src/noit_metric.c:392-420 | test vectors of that section without padding |
| Bytes.CompareIsOrder | src/noit_metric.h:340-350 | comparing by the common prefix and then by length is the lexicographic order |
| Bytes.StrictlySortedUnique | src/noit_metric.h:340-350 | two strictly sorted sequences with the same elements are the same sequence |
| TagCodec.IsTaggablePart | src/noit_metric.c:303-345 | the scan decides exactly whether a part is plain or quoted base 64 text |
| TagCodec.AdmitsIs | src/noit_metric.c:241-295 | the bytes of a plain key and of a plain value, listed |
| TagCodec.PartRoundTrip | src/noit_metric.c:303-426 | decoding an encoded part gives the part if and only if it is not a plain part that reads as quoted; otherwise what comes back is shorter |
| TagCodec.PartText | src/noit_metric.c:347-426 | the text of a part is taggable unless ambiguous, has the computed length, and has no comma, bar, bracket or brace, nor a colon in a key |
| TagCodec.MeasurePart | src/noit_metric.c:347-388 | the measuring loop knows before writing whether base 64 is needed and how long the text will be |
| TagCodec.EncodeTagInto | src/noit_metric.c:347-426 | the encoder with its early returns equals the specification, error codes included |
| TagCodec.EncodePair | src/noit_metric.c:347-426 | a pair encodes to key text, colon and value text exactly when that fits, and fails with -4 otherwise |
| TagCodec.DecodeFits | src/noit_metric.c:438-496 | a large enough buffer never changes what a tag decodes to |
| TagCodec.DecodeBounded | src/noit_metric.c:438-496 | what a tag decodes to in a buffer of any size, and exactly when it fails |
| TagCodec.TagRoundTrip | src/noit_metric.c:347-496 | an encoded tag decodes to itself if and only if neither part is ambiguous |
| TagCodec.TextHasNoStructure | src/noit_metric.c:347-426 | an encoded tag never contains a separator of names, and always a colon |
| TagReplace.KeyTargetTable | src/noit_metric.c:585-593 | the target size of a shortened key, through unsigned arithmetic, is one of five values |
| TagReplace.KeyTargetBounds | src/noit_metric.c:581-594 | the first size assertion holds, the key really shrinks, and a hashed value will still fit |
| TagReplace.ValueTargetBounds | src/noit_metric.c:611-624 | the second size assertion holds and the shortened value fits what the key leaves |
| TagReplace.ReplacementFits | src/noit_metric.c:531-662 | every replacement encodes to at most 256 bytes, and a tag is dropped if and only if its key is plain with 254 bytes and its value plain with at most one |
| TagReplace.DroppedIff | src/noit_metric.c:581-641 | the new key fills the key limit exactly in that case |
| TagReplace.FittingPartsKept | src/noit_metric.c:581-624 | a part stays unchanged if and only if it already fits |
| TagReplace.CutParts | src/noit_metric.c:581-624 | a part that is cut keeps its beginning, followed by "_tldr_" and the digest of the whole part |
| TagReplace.CutValueLength | src/noit_metric.c:611-624 | how long a value that is cut becomes |
| TagReplace.HexIs | src/noit_metric.c:581-624 | the digest is written with two lower-case digits a byte, the high one first |
| TagExamples.AmbiguousExample | src/noit_metric.c:303-426 | a plain value that is printed as it is and read back as empty |
| TagExamples.QuoteOnlyExample | src/noit_metric.c:303-426 | the two bytes that announce base 64, alone, are printed plain and cannot be read back |
| TagExamples.PartTextFixedIff | src/noit_metric.c:303-426 | the text of a part survives decoding and encoding if and only if the part is unambiguous or is itself the base 64 text of something that needs it |
| TagExamples.FixedTextExample | src/noit_metric.c:303-426 | an ambiguous part whose text survives although the part does not |
| TagExamples.DroppedExample | src/noit_metric.c:531-662 | an over-long tag, spelled in base 64, that is dropped |
| TagParse.ParseOneScan | src/noit_message_decoder.c:432-475 | the scan for one tag equals its specification |
| TagParse.BuildTagsLoop | src/noit_metric.c:531-662 | the loop over a tag list equals the recursive reading of it, limits and replacements included |
| TagParse.BuildJoined | src/noit_metric.c:531-662 | a comma-joined list of good tags is read back as exactly that list |
| TagParse.BuildLong | src/noit_metric.c:531-662 | a list of over-long tags is read as their stand-ins, until 32 are used |
| TagOrder.SortDedupSorts | src/noit_metric.c:688-700 | sorting and removing repeats gives a strictly sorted sequence of the same elements |
| TagOrder.SortDedupOfSet | src/noit_metric.c:688-700 | the result depends only on the set of elements |
| TagOrder.SortDedupStable | src/noit_metric.c:688-700 | a strictly sorted sequence stays as it is |
| TagOrder.DedupSorted | src/noit_metric.c:688-700 | the shifting loop over any sorted arrangement computes it |
| TagPrint.PrintRunIsJoin | src/noit_message_decoder.c:597-630 | printing tag by tag into the remaining room succeeds with the comma-joined texts exactly when they fit |
| TagPrint.PrintTagsInto | src/noit_message_decoder.c:597-630 | the printing loop equals that specification |
| NameClean.CleanNameCleans | src/noit_metric.c:729-742 | the cleaned name is clean and not longer |
| NameClean.CleanNameFixed | src/noit_metric.c:717-742 | cleaning changes nothing if and only if the name is clean |
| NameClean.CleanNameIs | src/noit_metric.c:729-742 | from the first to the last byte of 33 to 126, those bytes stay and all others become spaces, and the rest goes |
| NameClean.NothingVisible | src/noit_metric.c:729-742 | a name without such a byte is cleaned away |
| NameClean.CleanNameOffset | src/noit_metric.c:729-742 | every byte of the cleaned name is a space or comes from one fixed shift of the name |
| NameClean.CleanNameInPlace | src/noit_metric.c:729-742 | cleaning inside one array gives the cleaned name and leaves the rest of the array alone |
| MetricName.FindLastMarker | src/noit_metric.c:663-687 | the backward search finds the last block marker |
| MetricName.EatAllBlocks | src/noit_metric.c:743-790 | the loop that strips blocks from the end equals the recursive split of a name |
| MetricName.PrintBlockInto | src/noit_metric.c:793-826 | one block is printed within the remaining room, with its unsigned arithmetic |
| MetricName.RoomIs | src/noit_metric.c:793-826 | the room left is the difference of two size_t numbers, wrap-around included |
| MetricName.PrintNameInto | src/noit_metric.c:764-828 | base and blocks are printed one after the other with the error code of the first that does not fit |
| MetricName.CanonicalizeInto | src/noit_metric.c:764-828 | canonicalisation with any correct sort equals the specification |
| MetricBlocks.EatRendered | src/noit_metric.c:663-687 | a name rendered from a base and good blocks splits back into the base and the tags of its blocks |
| MetricLaws.CanonicalizeIdempotent | src/noit_metric.c:764-828 | a canonical name with at most 256 commas and no ambiguous part is its own canonical name |
| MetricLaws.PrintedIsFixed | src/noit_metric.c:764-828 | whatever is printed from a clean base and strictly sorted safe tags is a fixed point |
| MetricLaws.CanonicalNameOfSets | src/noit_metric.c:688-828 | names with the same clean base and the same sets of decoded tags, in any order, split, repetition or spelling, have the same canonical name |
| MetricLaws.CanonicalNameOfSplit | src/noit_metric.c:663-828 | the same for all names whatever, valid or not, in terms of the base and the sets of decoded tags that are split off |
| MetricLaws.CanonicalizeRegular | src/noit_metric.c:764-828 | the canonical name of a regular name is the printed clean base with its sorted decoded tags |
| MetricLaws.ParseCanonical | src/noit_metric.c:743-828 | parsing the canonical name gives the clean base and exactly the sets of decoded tags |
| MetricLaws.DecodeStoredIs | src/noit_metric.c:701-716 | stored tags decode as expected except a bare key of the maximal length, which decodes to nothing |
| MetricLaws.CleaningAddsNoMarker | src/noit_metric.c:717-742 | cleaning never creates a block marker |
| MetricPlain.PlainNameKept | src/noit_metric.c:764-828 | a name of bytes 33 to 126 without a bar is its own canonical name, or fails with -1, -3 or -8 for the buffer, 256 commas or 4095 bytes |
| MetricPlain.PlainNameParsed | src/noit_metric.c:743-763 | parsing such a name of up to 4096 bytes finds no tags, and a longer one fails |
| MetricPlain.PlainTagsKept | src/noit_metric.c:764-828 | such a name followed by |ST[key:value] and |MT{key:value} of letters and digits is its own canonical name |
| TagCompact.FilterInPlace | src/noit_message_decoder.c:510-525 | removing invalid tags in place keeps exactly the valid ones in order |
| TagCompact.Squash | src/noit_message_decoder.c:533-555 | the two-index loop leaves one tag of each run of equal ones, and its size is their sizes and commas |
| TagCompact.Compact | src/noit_message_decoder.c:488-555 | compaction leaves the valid tags without repeats and computes their printed size |
| TagCompact.CompactedIs | src/noit_message_decoder.c:488-555 | the result is strictly sorted, contains only valid given tags and one for each decoded value |
| TagCompact.CompactedFixed | src/noit_message_decoder.c:488-555 | compacting again changes nothing |
| TagsetText.JoinLength | src/noit_message_decoder.c:477-486 | the computed size is the number of bytes the printer writes |
| TagsetText.FromTagsIff | src/noit_message_decoder.c:597-649 | building the canonical string in a buffer of the computed size succeeds if and only if every tag encodes |
| TagsetText.CanonicalReparses | src/noit_message_decoder.c:564-649 | the canonical string parses back to the same tags, already compact |
| ClusterLog.CarriedIs | src/noit_clustering.c:291-301 | a reply carries a check if and only if it is registered and in the range |
| ClusterLog.CarriedOnce | src/noit_clustering.c:291-301 | a reply carries no check twice |
| ClusterLog.EatAcknowledged | src/noit_clustering.c:283-290 | exactly the acknowledged front of the log is freed |
| ClusterLog.ServeChanges | src/noit_clustering.c:258-307 | serving frees what is acknowledged and replies with the rest up to the limit |
| ClusterLog.Changelogs.MarkChanged | src/noit_clustering.c:213-256 | one new sequence number, appended to every log or to the one given, the others unchanged |
| ClusterLog.Changelogs.MarkCheckChanged | src/noit_clustering.c:213-256 | the same for a check, except that a selfcheck and a check without a sequence change nothing |
| ClusterLog.Changelogs.Rebuild | src/noit_clustering.c:185-211 | a peer's log becomes exactly the replicated things held, in order and under new sequences, and no other log changes |
| ClusterLog.Changelogs.ReplicationPending | src/noit_clustering.c:684-714 | never without a cluster, always while the lock is taken, and otherwise if and only if some log mentions the check |
| ClusterChannel.FinishKeepsOrder | src/noit_clustering.c:615-643 | finishing a job keeps prev_fetched <= fetched <= available and never moves back |
| ClusterChannel.NoWorkIff | src/noit_clustering.c:645-682 | no job is started if and only if both channels are fully acknowledged |
| ClusterChannel.NextRequestIs | src/noit_clustering.c:645-682 | a request asks from what is fetched to what is available or the batch size further, and for nothing exactly when all is acknowledged |
| ClusterChannel.StartedIff | src/noit_clustering.c:645-682 | a job starts if and only if something is not acknowledged, and it asks for a range of each channel of which one is not empty |
| ClusterChannel.JobProgress | src/noit_clustering.c:615-682 | a job without failure brings its channel closer to the end for every batch size, and leaves an idle channel alone |
| ClusterChannel.Peer.PossiblyStartJob | src/noit_clustering.c:645-682 | at most one job, only in a cluster and with work, with the computed requests |
| ClusterChannel.Peer.FinishJob | src/noit_clustering.c:513-643 | the completion of a job updates both channels and starts the next one if there is work |
| ClusterChannel.Peer.Heartbeat | src/noit_clustering.c:726-800 | a new boot time forgets what was fetched and rebuilds this peer's two changelogs, the announced sequences are taken over and a job may start; the counters stay in order when the sequences do not go down or the peer has rebooted |
| ClusterChannel.ReplyComplete | src/noit_clustering.c:258-307 | the reply carries every registered check of the requested range |
| ClusterChannel.Drain | src/noit_clustering.c:513-682 | the chain of jobs ends with no entry up to the announced sequence, everything past the start carried |
| ClusterLink.ServeKeeps | src/noit_clustering.c:258-307 | serving drops only what was delivered and covers the rest of the range |
| ClusterLink.TakeKeeps | src/noit_check.c:3548-3609 | applying a document keeps the account of what the peer has heard |
| ClusterLink.ReplyRecorded | src/noit_clustering.c:513-643 | a job whose reply is processed to the end acknowledges where it began, has fetched what it asked for and records the number of documents, all of which the peer has heard |
| ClusterLink.RebuiltStarts | src/noit_check.c:3540-3546 | a rebuilt changelog announces every replicated check at its present sequence and nothing else, so the link starts in its invariant |
| ClusterRace.ServedDuringEditIff | src/noit_check.c:880-897 | a request served while an edit has the check out of the registry, before or after the change is marked, is answered in full if and only if it reaches no entry of the check that the peer has not heard |
| Cluster.StepKeeps | src/noit_clustering.c:213-682 | every step but a backdated edit of a pending check keeps the protocol invariant |
| Cluster.RunKeeps | src/noit_clustering.c:213-682 | so does every run without such an edit |
| ClusterLaws.DroppedWasDelivered | src/noit_clustering.c:258-307 | in every reachable state, for each dropped entry, the peer has processed the check as that entry announced it or as a later and as new one did |
| ClusterLaws.DeliveredBeforeDrop | src/noit_clustering.c:258-307 | only an answer drops an entry, and only after its delivery |
| ClusterLaws.NoWorkNoBacklog | src/noit_clustering.c:283-301 | a peer without work leaves no entry up to the announced sequence |
| ClusterLaws.PurgeAfterDelivery | src/noit_check.c:1936-1994 | a tombstone leaves only when every peer has processed the very deletion, and then each peer is as new, unless it removed the check since it was announced |
| ClusterDelete.EditLeaves | src/noit_check.c:880-897 | an edit stores the check undeleted at the sequence it is given, a negative one as zero, or takes it away when what is held is newer or the sequence negative; nothing else changes |
| ClusterDelete.DeleteLeaves | src/noit_conf_checks.c:114-123 | a delete leaves a check with a sequence deleted at a higher sequence, takes one without away, and changes nothing else |
| ClusterDelete.PurgeLeaves | src/noit_check.c:1968-1994 | only a deleted check is purged, and nothing else changes |
| ClusterDelete.DeletionTaken | src/noit_check.c:3576-3615 | a peer not above the sequence from before a deletion that processes its document holds the check deleted |
| ClusterDelete.DeletionSpreads | src/noit_clustering.c:513-682 | a check deleted where its sequence was the highest around is, after replication under any schedule has come to rest in a full mesh, deleted at every node |
| ClusterLaws.SettledCatchesUp | src/noit_check.c:1606-1776 | over a settled link the peer is as new as the producer in every check announced to it since it last removed it |
| ClusterLaws.NeverRemovedTold | src/noit_check.c:1606-1776 | a check that the peer never removed has been announced to it at its present sequence |
| ClusterLaws.Converged | src/noit_check.c:1606-1776 | in a settled full mesh all nodes hold the same sequence of every check that none has removed since another announced it, re-added ones included, and all changelogs are empty |
| ClusterLaws.AcceptRaises | src/noit_check.c:3548-3609 | each accepted replica strictly raises the sequence |
| ClusterLaws.BoundKept | src/noit_check.c:3548-3609 | without an operator no step raises the highest sequence around |
| ClusterLaws.AcceptancesEnd | src/noit_check.c:1606-1776 | so every run accepts a check at a node at most as often as that bound exceeds its sequence |
| ClusterQuiet.WorkGoesOn | src/noit_clustering.c:513-682 | while a link has anything to announce, fetch or acknowledge, some step gets on with it |
| ClusterQuiet.UsefulStepLess | src/noit_clustering.c:513-682 | every such step leaves fewer acceptances to come in the cluster, or as many and less to do |
| ClusterQuiet.WorkEnds | src/noit_clustering.c:513-682 | so without edits and failures every schedule of such steps brings the whole cluster to a state in which no link has work |
| ClusterQuiet.ComesToAgree | src/noit_clustering.c:513-682 | in a full mesh that state has empty changelogs, and one sequence everywhere, at least what each node had, of every check that none has removed since another announced it |
| ClusterLaws.EditKeepsAnnouncedIff | src/noit_check.c:880-930 | an edit keeps what is announced if and only if it is not a backdated one of a check that a changelog mentions |
| ClusterExamples.LostDelivery | src/noit_check.c:880-930 | a run of two nodes from the start in which such an edit lets an entry be dropped undelivered |
| ClusterReturn.StaysGone | src/noit_check.c:1936-1994 | a check that no link can deliver never comes back to a node without it, whatever else happens and is purged |
| ClusterReturn.RoseThenCould | src/noit_check.c:3548-3615 | if a run of replication raised a node's sequence, then at its start a link could supply it and a route of lower nodes led to the node |
| ClusterReturn.Deliver | src/noit_clustering.c:258-682 | whatever a link can supply, a run of its own steps delivers |
| ClusterReturn.Push | src/noit_clustering.c:258-682 | a supply is taken along a route of lower nodes by a run of the links' steps |
| ClusterReturn.RisesIff | src/noit_check.c:3548-3615 | replication alone can raise a node's sequence of a check, and so bring back one it removed, if and only if there is such a supply and route |
| ClusterPurge.PurgeKeepsSupply | src/noit_check.c:1968-1994 | a purge neither takes away nor adds a supply of the check it purges |
| ClusterPurge.AcceptedThenCould | src/noit_check.c:3548-3615 | if a node accepts a check in a run with purges of it, then at its start a link could supply it and a route led to the node along nodes that are lower or that purge |
| ClusterPurge.ReturnsIff | src/noit_check.c:1968-1994 | with purges at nodes that may purge at the outset, a check can come to a node if and only if a link can supply it and a route leads there along nodes that are lower or may purge |
| ClusterExamples.PurgedComesBack | src/noit_check.c:1968-1994 | a run of two nodes from the start, without edits, in which a purged check comes back undeleted |
| LmdbKey.MakeKeyBuffer | src/noit_lmdb_tools.c:115-160 | filling a buffer with a moving cursor gives the key |
| LmdbKey.KeyBytes | src/noit_lmdb_tools.c:115-160 | the layout: uuid, type, and each string after its length as two bytes, high one first |
| LmdbKey.ParseMade | src/noit_lmdb_tools.c:115-196 | parsing a key gives its parts cut to sixteen-bit lengths |
| LmdbKey.KeyRoundTripIff | src/noit_lmdb_tools.c:115-196 | a key round-trips if and only if both strings are under 65536 bytes |
| LmdbKey.KeyInjective | src/noit_lmdb_tools.c:115-160 | such keys are equal only if everything in them is |
| LmdbScan.ScanIsOwn | src/noit_lmdb_tools.c:55-113 | a scan from the bare uuid until the uuid changes visits exactly the check's keys, in any database |
| LmdbScan.CollectKeys | src/noit_lmdb_tools.c:55-113 | the cursor loop computes that scan |
| LmdbStore.Transaction | src/noit_check_lmdb.c:465-631 | one pass with any point of failure commits exactly the request, refuses exactly a stale sequence, or reports a full map |
| LmdbStore.Configure | src/noit_check_lmdb.c:446-632 | after any number of aborted passes the result is that of the one pass that commits, and without other writers it is the first database with the check's keys replaced; a refused request changes nothing |
| LmdbCheck.RefusedIff | src/noit_check_lmdb.c:528-546 | a request is refused if and only if a sequence is held and some seq node does not read above it |
| LmdbStore.ReplacedIs | src/noit_check_lmdb.c:484-620 | the check's keys become exactly those of the request with the last value of each, and no other key changes |
| LmdbCheck.AttributesStored | src/noit_check_lmdb.c:484-527 | after a replacement the check has exactly the attributes of the eleven names that the request gives a value, each with its last value, under type A |
| LmdbCheck.ConfigStored | src/noit_check_lmdb.c:549-585 | and exactly the config it gives a value, under type C, a first XML attribute naming the key |
| LmdbCheck.StoredIsNewer | src/noit_check_lmdb.c:528-546 | a seq value stored over a positive sequence reads above it, whatever other writers do |
| LmdbCheck.SeqKeptIff | src/noit_check_lmdb.c:528-620 | a request that passes the sequence in the database keeps it from going down if and only if it is refused, none was there, or it has a seq value |
| LmdbCheck.SeqNeverFalls | src/noit_check_lmdb.c:528-620 | over every run of such requests with a seq value the sequence never goes down |
| LmdbStore.AppliedReplacesIff | src/noit_check_lmdb.c:472-620 | a pass replaces the keys if and only if no writer added a key between the scan and the transaction that the request does not put |
| LmdbStore.UndisturbedReplaces | src/noit_check_lmdb.c:472-620 | without another writer to the check every committing pass replaces its keys |
| LmdbStore.RaceLeavesKey | src/noit_check_lmdb.c:472-620 | a key added in between stays |
| LmdbStore.Remove | src/noit_check_lmdb.c:1007-1099 | removal needs the flag or force, and deletes exactly the check's keys |
| LmdbCheck.FlaggedIff | src/noit_check_lmdb.c:1025-1044 | a check is flagged by the value deleted or true of its attribute deleted |
| LmdbCheck.ConfiguredIsNotFlagged | src/noit_check_lmdb.c:484-620 | configuring a check takes the flag away |
| LmdbResize.GrownOncePerGeneration | src/noit_lmdb_tools.c:346-387 | in every interleaving no two growths are due to threads that saw the same generation, every past generation was grown, and the size follows from the number of growths |
| LmdbResize.OneGrowthForAll | src/noit_lmdb_tools.c:346-387 | of threads that found the map full at one generation the first to resize grows it, and each other one, however late, changes nothing |
| LmdbResize.GrownForThread | src/noit_lmdb_tools.c:346-387 | whoever grew it, the generation a thread found full has been grown when the thread goes on |
| LmdbResize.GrowIsWholePagesIff | src/noit_lmdb_tools.c:376-377 | the new size is whole pages if and only if four times the old one is |
| LmdbResize.SizesDouble | src/noit_lmdb_tools.c:376-377 | a map that starts with whole pages doubles at each growth and keeps whole pages |
| LmdbResize.MapIsWholePages | src/noit_lmdb_tools.c:288-387 | over every run a map opened at 64 MiB has whole pages and is a power of two times its first size |
| FilterApply.FilterSet.Walk | src/noit_filters.c:811-924 | one forward walk with a pending skip target equals the recursive meaning with jumps |
| FilterApply.FilterSet.Apply | src/noit_filters.c:777-928 | so an application gives the decision, tables and tags of that meaning, and counts executions and denials in 32 bits |
| FilterMeaning.ActsIff | src/noit_filters.c:819-923 | a rule acts if and only if each part is met, by its table or by its expression and searches, or has room to take the value in |
| FilterMeaning.TableAfter | src/noit_filters.c:849-923 | what every visit makes of a table: flushed, added to, or left |
| FilterMeaning.FlushedWhen | src/noit_filters.c:855-892 | the time of the last flush moves exactly when some part is not met and the period is over |
| FilterMeaning.ExpressionsAccept | src/noit_filters.c:633-690 | a rule of expressions accepts if and only if each present one compiles and matches its value, the metric without its tags |
| FilterMeaning.TablesAccept | src/noit_filters.c:633-690 | a rule of fixed tables accepts if and only if each value is listed, the metric by its name before the tags or by its whole name, with |ST[] appended to an untagged one |
| FilterMeaning.SearchesAccept | src/noit_filters.c:646-690 | a rule of tag searches accepts if and only if each present one parses and is met |
| FilterMeaning.FirstDecides | src/noit_filters.c:811-928 | a list of accepts and denies accepts if and only if the first rule that acts accepts |
| FilterMeaning.GoesOn | src/noit_filters.c:811-840 | a jump that acts goes on at its target, a tag rule that acts adds its tag, and all else that does not decide goes on with the next rule |
| FilterRule.VisitKept | src/noit_filters.c:817-923 | a visit changes nothing but tables and the time of the last flush |
| FilterLaws.EvalFrame | src/noit_filters.c:811-924 | rules before the start and after the deciding rule stay as they are |
| FilterLaws.JumpedOver | src/noit_filters.c:813-828 | rules that are jumped over stay as they are |
| FilterLaws.EvalReads | src/noit_filters.c:811-924 | from a position on only the rules from there on matter |
| FilterLaws.TablesBounded | src/noit_filters.c:849-923 | over every run of applications one after another each table stays within the larger of its first size and its limit |
| FilterThreads.SharedBounded | src/noit_filters.c:804-923 | over every interleaving of threads that test a table, add to it and flush it, its size stays within the larger of its first size and the limit plus the number of threads less one |
| FilterThreads.FlushAnytime | src/noit_filters.c:855-892 | a flush may come between a test and an insertion, and leaves the insertion to come |
| FilterThreads.SharedBoundReached | src/noit_filters.c:849-923 | for every positive limit and number of threads some interleaving reaches that bound |
| FilterRepeat.VisitAgainIff | src/noit_filters.c:819-923 | a rule asked again acts the same if and only if it did not act by adding after a flush emptied a matched table with a negative limit |
| FilterRepeat.AskedAgain | src/noit_filters.c:811-924 | with no negative limit the same question at the same moment, or before a flush is due, is decided by the same rule |
| FilterRepeat.NegativeLimitForgets | src/noit_filters.c:849-923 | a rule with a negative limit that accepts once and then no more |
| FilterCompile.LinkLoop | src/noit_filters.c:461-475 | the nested loops link each jump to the first later rule with its id |
| FilterCompile.Link | src/noit_filters.c:461-475 | links go forward and inside the list |
| FilterCompile.CompileLoop | src/noit_filters.c:298-481 | taking rules from the last to the first and prepending gives them in order, unknown types dropped |
| FilterCompile.TypesAre | src/noit_filters.c:327-360 | the rule types there are and what each means |
| FilterCompile.TagTypeIs | src/noit_filters.c:337-356 | a tag type with a category and a value |
| FilterCompile.CompiledPart | src/noit_filters.c:378-412 | when a part gets a table, what is in it, and when its expression counts |
| FilterCompile.CompiledRule | src/noit_filters.c:365-460 | the searches, the period by its four sources in seconds and microseconds, and the rest of a rule |
| FilterRecord.LoadLoop | src/noit_filters_lmdb.c:578-864 | loading a record builds and links its rules in order |
| FilterRecord.KindRoute | src/noit_filters_lmdb.c:326-350 | every type that comes from XML is stored and loaded unchanged |
| FilterRecord.UnknownDenies | src/noit_filters_lmdb.c:710-750 | a stored type that is none of the four denies |
| FilterRecord.StoredPart | src/noit_filters_lmdb.c:181-262 | when a part that goes through the record gets a table, with which entries and limit, and when it keeps its expression |
| FilterRecord.StoredPeriod | src/noit_filters_lmdb.c:676-708 | the period of a rule that goes through the record, by its sources |
| FilterRecord.PartRouteIff | src/noit_filters_lmdb.c:181-262 | a part is the same by both routes if and only if its entries come with a limit, or with a readable text and no negative limit |
| FilterRecord.FlushRouteIff | src/noit_filters_lmdb.c:676-708 | a flush period is the same by both routes if and only if no negative value is used |
| FilterRecord.RuleRouteIff | src/noit_filters_lmdb.c:385-507 | a rule is the same by both routes if and only if its parts and period agree |
| FilterRecord.SameDecisions | src/noit_filters_lmdb.c:509-864 | sets of agreeing rules are the same list with the same links and decide everything alike |
| FilterRecord.NonNegativeAgrees | src/noit_filters_lmdb.c:385-507 | rules without negative values and with readable entries agree |
| FilterRecord.RoutesDiffer | src/noit_filters_lmdb.c:181-262 | a rule with a listed target and a negative limit that differs between the routes |
| FilterPrint.PartReprints | src/noit_filters_lmdb.c:1034-1089 | a part printed and converted again loads the same |
| FilterPrint.KindReprints | src/noit_filters_lmdb.c:1001-1033 | what every type becomes when printed and parsed again: a tag rule without a category is refused, an empty category becomes none, all else is kept |
| FilterPrint.PrintedTypes | src/noit_filters_lmdb.c:1001-1033 | the text of every printed type |
| FilterPrint.KindReprintsIff | src/noit_filters_lmdb.c:1001-1033 | a type prints and reparses to itself if and only if it is not a tag rule without a category or with an empty one |
| FilterPrint.RuleReprints | src/noit_filters_lmdb.c:986-1105 | a rule printed, converted and loaded is as it was except for that change of its type |
| FilterPrint.RuleReprintsIff | src/noit_filters_lmdb.c:986-1105 | so does a whole rule |
| FilterPrint.RulesReprintIff | src/noit_filters_lmdb.c:912-1105 | a set prints and converts to the same rules if and only if all are printable |
| FilterPrint.ReprintGives | src/noit_filters_lmdb.c:912-1105 | for every set, what is loaded afterwards: the rules in order without the refused ones |
| FilterPrint.ReprintKeepsDecisions | src/noit_filters_lmdb.c:912-1105 | a printable set decides every query as before |
| FilterPrint.LostTarget | src/noit_filters_lmdb.c:912-1105 | a stored set that accepts everything and, printed, converted and loaded, denies everything because the target of a jump is lost |
| FilterLoad.Registry.Load | src/noit_filters.c:270-297 | a set replaces the one of its name only with a higher sequence; its name is touched either way, and the cluster is told exactly of a change without a negative sequence |
| FilterLoad.HoldsNewest | src/noit_filters.c:270-297 | after any loads a name holds the first set of its highest sequence |
| ScheduleSlots.FindLeast | src/noit_check.c:556-582 | the cyclic search finds the first least count below 65535 |
| ScheduleSlots.FindSmallest | src/noit_check.c:534-584 | the balance is in the minute, in a least loaded slot of a least loaded eligible second |
| ScheduleSlots.WindowIs | src/noit_check.c:534-571 | which seconds a check may start in, with and without priority, in numbers |
| ScheduleSlots.LeastIs | src/noit_check.c:556-582 | the place found is one of those looked at, and none of them has a smaller count |
| ScheduleSlots.OffsetIsFromSeconds | src/noit_check.c:585-592 | the offset from seconds and microseconds is the time in milliseconds left after taking off whole minutes |
| ScheduleSlots.Adjust | src/noit_check.c:585-592 | one slot and its second change, in sixteen bits |
| ScheduleSlots.CountsChanged | src/noit_check.c:585-592 | such a change keeps slots counting checks and seconds summing slots |
| ScheduleTime.MinuteIsFromSeconds | src/noit_check.c:705 | dividing and multiplying the seconds by sixty gives the start of the minute |
| ScheduleTime.FireTime | src/noit_check_tools.c:165-186 | the computed target is the next grid point and lies after now |
| ScheduleTime.FireIsNextGridPoint | src/noit_check_tools.c:165-186 | it is the least point of the grid after now, at most one period ahead |
| ScheduleTime.Settle | src/noit_check.c:708-721 | both loops end with a whole number of periods moved and now inside the period |
| ScheduleTime.FirstStartUnique | src/noit_check.c:685-728 | tables, clock and random offsets determine the aligned time and the first start |
| ScheduleTime.ChosenIsLeast | src/noit_check.c:568-584 | without priority, or for a period that is not whole minutes, the second is a least loaded one of the next seconds that the period has, up to sixty |
| ScheduleTime.PriorityLeavesRoom | src/noit_check.c:550-567 | with priority, a check of whole minutes and up to fifty seconds timeout starts with its timeout left in the minute |
| ScheduleTime.Scheduler.FakeLastCheck | src/noit_check.c:685-728 | the first start is the one determined by the least loaded slot found, lies in the last period and on the grid of its slot, and the slot is counted; with priority it leaves a timeout of up to fifty seconds in the minute, and without, its second is least loaded of the next ones |
| ScheduleTime.Scheduler.ScheduleNext | src/noit_check_tools.c:117-203 | a live check is armed for the next grid point, of one second while it has to be resolved and is not new, a disabled one is uncounted, a zero period does nothing |
| ScheduleLaws.FiringsOnGrid | src/noit_check_tools.c:77-203 | over every run firings follow each other on the grid of the first start |
| ScheduleLaws.FiresAtOffset | src/noit_check_tools.c:165-186 | a check of whole minutes always fires at the offset it was given |
| ScheduleLaws.RoomForTimeoutIff | src/noit_check.c:550-563 | every allowed start leaves the timeout before the minute ends if and only if the timeout is at most fifty seconds |
| ScheduleLaws.PrioritisedFinishesInMinute | src/noit_check.c:550-584 | so every firing of such a check does |
| ScheduleLaws.RunCounts | src/noit_check.c:586-598 | over every run each slot counts the live checks at its offset and each second its fifty slots, modulo 65536 |
| ScheduleLaws.ExactBelowWrap | src/noit_check.c:586-598 | below 65536 checks the counts of slots and of seconds are exact |
| ScheduleLaws.Begin | src/noit_check.c:685-728 | scheduling a check is one step of that run, in a least loaded slot |
| ScheduleLaws.End | src/noit_check_tools.c:134-141 | finding it disabled is one step of that run |
| ScheduleDrift.UncountUndoesIff | src/noit_check.c:685-728 | for all tables, clocks and random offsets uncounting the first start undoes its counting if and only if the period is a whole number of minutes |
| ScheduleDrift.DriftExists | src/noit_check.c:685-728 | for every other period and in every minute, a clock and an offset for which the first start falls in another slot than the counted one |
| ScheduleDrift.SevenSecondsDrift | src/noit_check.c:685-728 | with a period of seven seconds, ten seconds into any minute, second 11 is counted and second 4 uncounted |

## Left out

- HTTP and REST handlers, console commands, fetching over the network, XML trees, logging and memory management: only their effect on the modelled state is kept.
- Regular expressions and tag searches are arbitrary predicates.
- Two boot epochs: a heartbeat after a reboot is modelled for one peer, and the replication laws of N nodes are stated within one epoch, with heartbeats that do not go down and no job across a reboot.
- Filter contents in the replication protocol: the filter channel has the same counters as the check channel, and the N-node protocol follows checks.
- Conflicts between checks of the same name.
- StepKeeps: takes an edit or an acceptance as one step, where the code removes the check, marks the change and stores the check in turn; what a request served in between does is stated by ServedDuringEditIff for one link, and is not part of the runs of N nodes.
- RunKeeps: has the same single step.
- RisesIff: is exact for runs in which the check itself is not edited, deleted or purged; ReturnsIff has purges.
- ReturnsIff: is exact for purges at nodes that may purge at the outset; for nodes that may only later AcceptedThenCould and StaysGone give one direction.
- WorkEnds: is about runs without edits, purges and failed fetches; each of them can make new work.
- CanonicalizeInto: decodes tags into the buffer that holds their text in the code; here it works on values, and the aliasing is not captured.
- CanonicalNameOfSets: is about names made of tags that are valid in any position; the last value of a block, which the parser does not validate, may be anything and even contain a block marker, and is covered by CanonicalNameOfSplit, in terms of what is split off.
- CanonicalizeRegular: is about the same names.
- The scratch buffer for an over-long tag is taken to be large enough, and more than 32 replacements are dropped as the code does.
- A quoted part of two bytes, for which the code computes a negative length, counts as undecodable.
- noit_metric_tagset_init_with_context, which stores the number of commas instead of the number of tags left.
- The sequence probe of the conversion from XML checks to LMDB, and the retry of the filter-set write.
- Apply: the counters of single rules, the reference count and the time of the last use are not modelled, and neither is the expanded metric name, which no rule reads; the measurement tags are.
- ScheduleNext: for a live check with a period, a clock before its last check ends the process and is excluded.
- FakeLastCheck: a clock before the first period after the epoch is excluded.
- Sequence numbers, generations and times are unbounded; slot counts, key lengths and size computations have their machine width.
