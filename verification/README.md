# Pulso codec: a verified model

Pulso stores logs, metrics and traces in column files on object storage, and its
native codec (`native/pulso_codec`) answers queries over them. Much of the codec
is a fast form of something simpler: per-minute rollups stand in for log lines, a
bitmap index for reading every row, a postfix program for a condition tree, a
streaming JSON filter for decoding and then filtering, a bounded merge for
protobuf semantics. This project models those forms and proves that they agree
with the simple ones, for all inputs.

| part | modules |
|---|---|
| log rollups and binned log queries | `LogBuckets`, `LogLabels`, `RollupBuilder`, `RollupMerge`, `BinnedScan`, `RollupAnswers`, `LogRollup`, `LogMetric`, and helpers `Tally`, `Grid`, `Interning`, `RunTotals` |
| metric postings index and pruning | `Bitmap`, `Canonical`, `Table`, `PostingsText`, `MetricPostings` |
| TraceQL programs and structural search | `SpanStructure`, `SpanProgram` |
| OTLP ingest | `Protobuf`, `OtlpSchema`, `FieldTable`, `OtlpMerge`, `OtlpFuse`, `OtlpNodes`, `OtlpUsage`, `OtlpPreflight`, `JsonInteger` |
| finalizing metrics, regrouping logs | `MetricTiers`, `MetricGroups`, `MetricCuts`, `MetricSeries`, `MetricRollup`, `MetricAggregate`, `MetricHour`, `LogTiers`, and helpers `Runs`, `Permutation` |
| pattern mining | `Patterns`, `PatternTree`, `PatternApart`, `PatternReport`, `PatternMiner`, `PatternTwins` |
| decoding stored lines | `JsonSyntax`, `JsonParser`, `Segment` |
| stored codecs and keys | `Wire`, `NativeHistogram`, `Exemplar`, `Text`, `MetricDiscovery` |

What the codec updates in place is a class here (`RollupBuilder.Builder`,
`BinnedScan.State`, `LogTiers.Grouper`, `PatternMiner.Miner`,
`OtlpPreflight.Budget`, `JsonParser.Parser`, `MetricHour.Builder`,
`MetricSeries.Series`, `MetricDiscovery.State`, `Protobuf.Reader`, ...); its loops
are methods with invariants. Each method is proved against a function, and the
lemmas say what that function means. Column files are sequences of rows, 64-bit
doubles are bit patterns or an ordered type with NaN and a marked negative zero,
and hashes, regular expressions, float parsing, JSON writers and the regex
engine are arbitrary functions given as parameters.

Where the code and its documentation disagree the model follows the code:

- `structural` is documented to give duplicate rows of a span the same relatives;
  rows that store different parents need not share ancestors or siblings
  (`SpanStructure.DuplicateRowsMayDiffer`), and
  `SpanStructure.DuplicateRowsShareRelatives` says exactly, over all five
  relations, when two rows do.
- `bucket_end` is documented as the smallest minute multiple at or after a
  timestamp; past the last representable boundary its addition wraps
  (`LogBuckets.BucketEndWraps`), and `LogBuckets.BucketEndExact` says exactly when
  it is right. Rollups of such lines cannot be read back
  (`LogRollup.RollupReadable`).
- Merging fragments of an attribute one by one can fail where their concatenation
  does not (`OtlpFuse.SplitMayFail`); `OtlpFuse.SplitsByBytes` says exactly when it
  does, from the bytes alone. The other direction always holds
  (`OtlpFuse.MergeConcat`).
- Mined patterns are documented to come largest total first. That holds whenever no
  word of a line trained is `<_>`, the text of the wildcard
  (`PatternMiner.Miner.Finish`, `PatternMiner.NoTwins`). With such words two live
  templates can render alike and be reported together but late
  (`PatternTwins.LargestMayComeLater`); `PatternReport.LargestFirstIff` says exactly
  when they do.

`dafny verify dfyconfig.toml` checks the project.

## Model

| member | source | states |
|---|---|---|
| `LogMetric.RollupAnswersScan` | native/pulso_codec/src/log_metric.rs:839-995 | for any lines, any stored range and any set of buckets, folding the rollup's rows fails when and as scanning the lines of those buckets fails, and leaves the same (series, bucket) sums in any scan it is folded into, when the grouping drops the correlation IDs or no line of those buckets has one; otherwise the fold falls back |
| `LogMetric.AnswerBothWays` | native/pulso_codec/src/log_metric.rs:682-971 | two equal scan states, one fed the lines of a window between minute boundaries and one fed their rollup, succeed together (unless series may hold IDs that some line has) and end with the same bins and sample counts; the results are the lines chosen and the rows wanted |
| `LogMetric.WindowScan` | native/pulso_codec/src/log_metric.rs:682-780 | a time-bounded scan between two minute boundaries does to every line what the scan of the buckets between them does |
| `LogMetric.SameSeries` | native/pulso_codec/src/log_metric.rs:883-995 | a grouping that drops IDs, or a line without IDs, gives the series key and the error label of the line's stream alone |
| `LogMetric.SameNames` | native/pulso_codec/src/log_metric.rs:1059-1125 | entry labels exist with IDs exactly when they exist without, and agree on every name that is no ID name |
| `RollupAnswers.RowsAnswerScan` | native/pulso_codec/src/log_metric.rs:919-971 | the generic form: rows that store the sums of lines give a fold the same failures and the same bins as the lines |
| `RollupAnswers.TracedFallsBack` | native/pulso_codec/src/log_metric.rs:914-971 | a wanted traced line under a grouping that may keep IDs makes the fold of the rollup refuse |
| `RollupAnswers.TracedRow` | native/pulso_codec/src/log_rollup.rs:142-244 | a stored row is readable, and counts traced lines exactly when one of its lines is traced |
| `RollupAnswers.RowIffLine` | native/pulso_codec/src/log_rollup.rs:130-244 | a row with a chosen key exists exactly when a counted line with that key does |
| `RollupAnswers.TotalsCountLines` | native/pulso_codec/src/log_rollup.rs:270-313 | the line counts a finished rollup reports are those of the lines of each bucket |
| `RollupAnswers.SameBins` | native/pulso_codec/src/log_metric.rs:897-911 | two folds adding the same sums under the same keys leave the same bins, whatever was there before |
| `BinnedScan.State.Scan` | native/pulso_codec/src/log_metric.rs:682-881 | scanning a batch adds every line's contribution, building each distinct label set once, and answers how many lines were chosen and how many kept; on an error, a line fails that way or the bins would pass the limit |
| `BinnedScan.State.AddRollup` | native/pulso_codec/src/log_metric.rs:919-971 | folding rollup rows adds every wanted row's contribution, making each stream's key once, and answers how many rows were wanted; same error cases |
| `BinnedScan.State.AddBin` | native/pulso_codec/src/log_metric.rs:897-911 | adds one amount under (series, bucket); refuses exactly when the bins would pass the limit |
| `LogLabels.BuildLabels` | native/pulso_codec/src/log_metric.rs:1059-1125 | the labels built by the loops are the entry labels: promotion, name collisions and IDs included |
| `LogLabels.Combine` | native/pulso_codec/src/log_metric.rs:1109-1119 | whatever order metadata is visited in, each label comes out as the collision rule says |
| `LogLabels.Promote` | native/pulso_codec/src/log_metric.rs:1079-1091 | promoted names join the stream's own names without replacing them, and own their names from then on |
| `LogLabels.IdsTouchOnlyIdNames` | native/pulso_codec/src/log_metric.rs:1059-1125 | adding correlation IDs changes the label of no other name |
| `LogLabels.EntryIsCombined` | native/pulso_codec/src/log_metric.rs:1109-1119 | the collision rule determines the labels |
| `LogBuckets.BucketEndExact` | native/pulso_codec/src/log_rollup.rs:46-48 | the computed bucket end is the minute boundary of the timestamp if and only if the timestamp is at most the last representable boundary |
| `LogBuckets.BucketEndWraps` | native/pulso_codec/src/log_rollup.rs:46-48 | the largest timestamp gets a bucket end in the past: the documented smallest multiple at or after it is not representable |
| `LogBuckets.BoundaryIs` | native/pulso_codec/src/log_rollup.rs:44-48 | the boundary of a timestamp is the unique minute multiple b with b - 60 s < ts <= b |
| `LogBuckets.MinuteIsBoundary` | native/pulso_codec/src/log_tiers.rs:281-284 | a segment summary's minute number times 60 s is that boundary, and is the rollup's bucket end exactly up to the last representable one |
| `LogBuckets.WindowIsBuckets` | native/pulso_codec/src/log_rollup.rs:94-109 | a window between boundaries holds exactly the timestamps of the buckets between them |
| `LogBuckets.WholeIffAligned` | native/pulso_codec/src/log_rollup.rs:105-109 | a window holds only whole buckets if and only if it is empty or starts and ends on boundaries |
| `RollupBuilder.Builder.Intern` | native/pulso_codec/src/log_rollup.rs:111-128 | a stream's number finds the stream, numbers fit 32 bits, and interning fails exactly for streams whose labels cannot be built |
| `RollupBuilder.Builder.AddCell` | native/pulso_codec/src/log_rollup.rs:130-139 | adds to one (bucket, stream) cell; refuses only when the cells would pass the limit |
| `RollupBuilder.Builder.AddBatch` | native/pulso_codec/src/log_rollup.rs:142-244 | every counted line of a batch, and no other, is added to its cell although stream numbers are reused across repeated columns; it fails exactly when some line is refused, and then with the cause of the first such line: a body or labels that cannot be stored, or one cell too many |
| `RollupBuilder.Builder.AddRollup` | native/pulso_codec/src/log_rollup.rs:248-266 | exactly the covered rows of a stored rollup are added, and every row was readable |
| `RollupBuilder.Builder.Finish` | native/pulso_codec/src/log_rollup.rs:270-313 | the rows list the cells by bucket and then by stream, and the totals are each bucket's line count, increasing |
| `RunTotals.Totals` | native/pulso_codec/src/log_rollup.rs:300-306 | summing runs of an ordered listing gives one total per bucket with the same amounts |
| `RollupMerge.MergeIsWhole` | native/pulso_codec/src/log_rollup.rs:248-266 | merging the rollups of any parts gives the rollup of all their lines restricted to the covered buckets: same cells, same counts, nothing else |
| `RollupMerge.RowsAnswer` | native/pulso_codec/src/log_rollup.rs:130-139 | any sum over chosen buckets and streams is the same over the rows as over the lines |
| `RollupMerge.BuiltByParts` | native/pulso_codec/src/log_rollup.rs:142-266 | a rollup built at once equals the merge of rollups built by parts that count the same lines in covered buckets |
| `LogRollup.BuildRollup` | native/pulso_codec/src/log_rollup.rs:94-313 | building over the batches of any segments stores exactly their lines' sums, by bucket, service, resource, attributes and level, with the totals of each bucket; it fails exactly when a line is refused, with the cause of the first such line |
| `LogRollup.StreamOrders` | native/pulso_codec/src/log_rollup.rs:284-299 | the comparison that sorts streams, absent columns first, is a strict total order |
| `LogRollup.RollupReadable` | native/pulso_codec/src/log_rollup.rs:495-502 | every stored row passes the reader's checks if and only if every counted line's boundary is representable |
| `LogRollup.BuildByParts` | native/pulso_codec/src/log_rollup.rs:142-266 | for a minute-aligned range, merging the rollups of any split of the lines gives the cells of one rollup of everything |
| `MetricPostings.WriteThenPrune` | native/pulso_codec/src/metric_postings.rs:75-429 | indexing rows, storing the index, reading it back and pruning with it and with sound time statistics keeps the row group of every row that matches and is in time |
| `MetricPostings.Build` | native/pulso_codec/src/metric_postings.rs:75-188 | an index text is produced exactly when the rows are within the bounds, all label sets are readable and some label fits; it has at most 65,536 characters, parses back to a well-formed index, and that index describes the rows |
| `MetricPostings.BuildDictionary` | native/pulso_codec/src/metric_postings.rs:91-129 | distinct label sets in order of first use within the size and work bounds; consecutive rows sharing one buffer need no probe |
| `MetricPostings.BuildGroups` | native/pulso_codec/src/metric_postings.rs:130-138 | each group counts its rows and marks exactly the series they are of |
| `MetricPostings.BuildPartition` | native/pulso_codec/src/metric_postings.rs:157-177 | the values of a label, each with exactly the series that have it, or nothing when a value is too long |
| `MetricPostings.ChooseLabels` | native/pulso_codec/src/metric_postings.rs:139-187 | the labels kept are those that fit, tried in order under the text bound |
| `MetricPostings.CollectNames` | native/pulso_codec/src/metric_postings.rs:144-149 | exactly the label names short enough to index, sorted |
| `MetricPostings.ReadPairs` | native/pulso_codec/src/metric_postings.rs:48-71 | splits canonical labels into pairs with the checks made as they are read |
| `MetricPostings.NoMatchExcluded` | native/pulso_codec/src/metric_postings.rs:369-399 | no group that holds a row whose labels match is excluded |
| `MetricPostings.KeptExactly` | native/pulso_codec/src/metric_postings.rs:369-399 | when every matcher is an equality on an indexed label, exactly the groups with a matching row are kept |
| `MetricPostings.PicksMatching` | native/pulso_codec/src/metric_postings.rs:369-399 | a pruning matcher picks exactly the series it matches, missing labels read as empty |
| `MetricPostings.Candidates` | native/pulso_codec/src/metric_postings.rs:369-399 | the bitmap intersection answers which groups stay, and nothing exactly when no matcher prunes |
| `MetricPostings.CandidateGroups` | native/pulso_codec/src/metric_postings.rs:404-429 | answers exactly when the stored index is usable for the file and some matcher prunes |
| `MetricPostings.SurvivingRowGroups` | native/pulso_codec/src/metric_segment_parquet.rs:1115-1133 | the row groups read are exactly those that both the index and the time statistics leave |
| `MetricPostings.PassingRowSurvives` | native/pulso_codec/src/metric_segment_parquet.rs:1171-1203 | intersected with sound time statistics, pruning still loses no passing row |
| `PostingsText.Parse` | native/pulso_codec/src/metric_postings.rs:259-366 | reading with every check made as the bytes come accepts exactly the texts of well-formed indexes |
| `PostingsText.ParseEncoded` | native/pulso_codec/src/metric_postings.rs:197-226 | every well-formed index within the bound parses back from its text |
| `PostingsText.EncodeParsed` | native/pulso_codec/src/metric_postings.rs:259-366 | every accepted text is the text of a well-formed index: groups cover all series, row counts add up, no padding bits, values partition the series |
| `PostingsText.CoverComplete` | native/pulso_codec/src/metric_postings.rs:298-317 | the accumulated bitmap is the universe exactly when every series is in some group |
| `PostingsText.ReadIndex` | native/pulso_codec/src/metric_postings.rs:259-366 | the cursor reads a body to the end, and fails exactly when it is malformed |
| `PostingsText.Cursor.Take` | native/pulso_codec/src/metric_postings.rs:228-257 | takes one field and moves past it, or fails |
| `Bitmap.PackInverts` | native/pulso_codec/src/metric_postings.rs:36-46 | packing bits into octets loses nothing |
| `Bitmap.UnpackInverts` | native/pulso_codec/src/metric_postings.rs:250-256 | unpacking octets into bits loses nothing |
| `Canonical.ParseInverts` | native/pulso_codec/src/metric_segment_parquet.rs:1139-1157 | canonical label bytes and label pairs are inverse to each other, both ways |
| `Canonical.ParsePairs` | native/pulso_codec/src/metric_segment_parquet.rs:1139-1157 | the separator scan reads exactly the pairs, or refuses |
| `Canonical.CanonicalBytes` | native/pulso_codec/src/metric_segment_parquet.rs:427-436 | writes the pairs with their separators |
| `Canonical.LabelsMatch` | native/pulso_codec/src/metric_segment_parquet.rs:1235-1265 | the loop accepts exactly the labels every matcher holds of, missing ones read as empty |
| `SpanStructure.Closure` | native/pulso_codec/src/tempo_expression.rs:551-567 | for any edges, cycles included, the worklist ends with exactly the nodes reached from the seeds |
| `SpanStructure.Structural` | native/pulso_codec/src/tempo_expression.rs:474-549 | a row is kept exactly when the chain of relations, each by its parent-path definition, ends in it |
| `SpanStructure.Join` | native/pulso_codec/src/tempo_expression.rs:486-549 | one relation joins exactly the rows related to a current row |
| `SpanStructure.Adjacency` | native/pulso_codec/src/tempo_expression.rs:474-485 | the tables built hold exactly the child and parent links of the rows |
| `SpanStructure.Converses` | native/pulso_codec/src/tempo_expression.rs:486-549 | descendant and ancestor, child and parent are converses row by row; sibling is symmetric and never relates equal IDs |
| `SpanStructure.DescendantUnfolds` | native/pulso_codec/src/tempo_expression.rs:551-567 | descendant is the transitive closure of child through stored rows |
| `SpanStructure.KeptIffChain` | native/pulso_codec/src/tempo_expression.rs:474-549 | a row is kept if and only if it ends a chain with one row for every spanset |
| `SpanStructure.DuplicateRowsMayDiffer` | native/pulso_codec/src/tempo_expression.rs:471-474 | two rows of one span that store different parents need not share ancestors or siblings, against the documentation |
| `SpanStructure.DuplicateRowsShareRelatives` | native/pulso_codec/src/tempo_expression.rs:471-549 | two rows of one span have the same relatives under all five relations if and only if they store the same parent, or no row stores either parent and no other span names either |
| `SpanProgram.Compile` | native/pulso_codec/src/tempo_expression.rs:59-183 | the instruction loop accepts and compiles exactly as the specification folds instructions |
| `SpanProgram.AcceptedIsQuery` | native/pulso_codec/src/tempo_expression.rs:59-183 | every accepted program renders a grammatical query within the limits, and compiles to that query's trees, relations and projection |
| `SpanProgram.QueryAccepted` | native/pulso_codec/src/tempo_expression.rs:59-183 | every grammatical query within the limits is accepted and compiles to itself |
| `SpanProgram.QueryUnique` | native/pulso_codec/src/tempo_expression.rs:59-183 | an accepted program renders only one query |
| `SpanProgram.PostfixInjective` | native/pulso_codec/src/tempo_expression.rs:59-183 | different condition trees have different postfix programs |
| `SpanProgram.Run` | native/pulso_codec/src/tempo_expression.rs:348-468 | any program does what the stack machine does; on a tree's postfix form it never underflows and settles with exactly one value, the tree's meaning, or stops at the first condition that cannot be read |
| `SpanProgram.AcceptedSettles` | native/pulso_codec/src/tempo_expression.rs:59-183 | every condition of an accepted program is a tree's postfix form, so running it never underflows and ends with one value |
| `SpanProgram.Mask` | native/pulso_codec/src/tempo_expression.rs:195-285 | a span's mask has bit i set exactly when condition i holds |
| `SpanProgram.SearchMeaning` | native/pulso_codec/src/tempo_expression.rs:474-549 | given masks that say which conditions each span meets, the structural search returns exactly the rows that end a chain of spans meeting the conditions in turn |
| `SpanProgram.Search` | native/pulso_codec/src/tempo_expression.rs:59-549 | compiling a program, masking every span with it and searching: refused exactly when the program renders no query, unreadable exactly when a needed condition is, and otherwise a row is returned exactly when it ends a chain of spans that meet the query's conditions in turn |
| `OtlpMerge.MergeInto` | native/pulso_codec/src/otlp_merge.rs:60-162 | the in-place merge of a fragment does what the merge function says, errors included |
| `OtlpMerge.MergeSound` | native/pulso_codec/src/otlp_merge.rs:42-162 | merging keeps a plan sound at every level: fields in increasing order, messages of their field's schema, and at most one member of each oneof |
| `OtlpMerge.AtMostOne` | native/pulso_codec/src/otlp_merge.rs:42-50 | two entries of a sound plan that are members of its oneof are the same entry |
| `OtlpMerge.MergeCharges` | native/pulso_codec/src/otlp_merge.rs:60-162 | a merge charges a function of the fragment's bytes alone, replaced branches included, and the plan's total grows by exactly that within the limits |
| `OtlpMerge.PushVarints` | native/pulso_codec/src/otlp_merge.rs:163-176 | a packed varint field pushes exactly its numbers, or is refused |
| `OtlpFuse.MergeConcat` | native/pulso_codec/src/otlp_merge.rs:60-162 | if two fragments merge one after the other, their concatenation merges, and leaves the same fields |
| `OtlpFuse.MergeSplits` | native/pulso_codec/src/otlp_merge.rs:60-162 | bytes that merge as one also merge in two if and only if they are split between records and, inside attributes, one more node is within the limits |
| `OtlpFuse.SplitsByBytes` | native/pulso_codec/src/otlp_merge.rs:60-162 | the same condition in terms of what the plan was charged before and what the bytes alone are charged |
| `OtlpFuse.SplitMayFail` | native/pulso_codec/src/otlp_merge.rs:60-74 | a text value given twice merges as one and not in two under a limit of one node, as each fragment is charged a node |
| `OtlpFuse.FuseConcat` | native/pulso_codec/src/otlp_merge.rs:60-162 | without limits, merging one fragment and then another merges their concatenation |
| `OtlpFuse.AdjacentFragments` | native/pulso_codec/src/otlp_merge.rs:60-162 | two adjacent fragments of a singular message field, at any level, leave what one fragment with the bytes of both would |
| `OtlpFuse.AdjacentDeep` | native/pulso_codec/src/otlp_merge.rs:60-162 | the same of encoded bytes at any depth: inside any message fields, with whole records before and any bytes after at every level, two adjacent fragments of a singular message field leave what one with the bytes of both does |
| `OtlpFuse.AdjacentMerge` | native/pulso_codec/src/otlp_merge.rs:60-162 | and of the merge with limits, where both ways succeed |
| `OtlpFuse.FuseSound` | native/pulso_codec/src/otlp_merge.rs:42-162 | merging without limits keeps a plan sound |
| `OtlpFuse.MergeFuses` | native/pulso_codec/src/otlp_merge.rs:60-162 | where a merge succeeds, its fields are those of the merge without limits |
| `OtlpNodes.MergeBounded` | native/pulso_codec/src/otlp_merge.rs:60-162 | merging a fragment adds at most the nodes preflight counts for it |
| `OtlpNodes.DecodedBounded` | native/pulso_codec/src/otlp_traces.rs:311-464 | a decoded message has no more nodes than preflight counted for its bytes |
| `OtlpPreflight.Preflight` | native/pulso_codec/src/otlp_traces.rs:311-464 | the budgeted recursive walk passes exactly when the bytes can be read and every total - nodes, records, groups, events, links, pairs, attribute bytes and nodes - added to what was used is within its limit, and then the budget grew by exactly those totals |
| `OtlpPreflight.DecodeWithin` | native/pulso_codec/src/otlp_traces.rs:531-552 | a request passes preflight exactly when its totals are within the limits; what it then decodes to is sound and has at most the limit of nodes |
| `OtlpPreflight.Budget.AddRecord` | native/pulso_codec/src/otlp_traces.rs:303-405 | counts a message under its kind's limit |
| `OtlpUsage.MeasureCounts` | native/pulso_codec/src/otlp_traces.rs:311-464 | the node total is the count that bounds decoding |
| `OtlpSchema.TableFacts` | native/pulso_codec/src/otlp_traces.rs:66-190 | packed fields repeat, and members of a oneof do not |
| `Protobuf.Reader.TakeNext` | native/pulso_codec/src/otlp_traces.rs:244-264 | reads exactly the next record, or refuses malformed and truncated input |
| `Protobuf.Reader.TakeVarint` | native/pulso_codec/src/otlp_traces.rs:230-243 | reads a varint of at most 64 bits |
| `Protobuf.NextKeeps` | native/pulso_codec/src/otlp_traces.rs:244-264 | bytes that follow a record do not change it |
| `Protobuf.CountVarints` | native/pulso_codec/src/otlp_traces.rs:267-285 | counts the varints of a packed field, or refuses |
| `Protobuf.PackedLength` | native/pulso_codec/src/otlp_traces.rs:267-285 | the count is the number of values expanded |
| `JsonInteger.Integer` | native/pulso_codec/src/otlp_json_integer.rs:72-151 | for every JSON number lexeme (section 6 of RFC 8259), a value is returned if and only if the exact decimal value is an integer in [-2^63, 2^64 - 1], and it is that value in its type |
| `JsonInteger.ClampHarmless` | native/pulso_codec/src/otlp_json_integer.rs:104-125 | clamping the exponent changes neither whether the shifted digits fit nor their value |
| `JsonInteger.Shifted` | native/pulso_codec/src/otlp_json_integer.rs:122-139 | the significant digits shifted by a power of ten, exactly when that is a 64-bit magnitude |
| `JsonInteger.Significance` | native/pulso_codec/src/otlp_json_integer.rs:84-96 | counts the digits and finds the first and the last nonzero one |
| `JsonInteger.TooWide` | native/pulso_codec/src/otlp_json_integer.rs:100-125 | more than twenty significant digits and zeros are no 64-bit integer |
| `MetricTiers.KeptOnce` | native/pulso_codec/src/metric_tiers.rs:226-228 | what the parts of any partition of the rows hold together is the rows, each once |
| `MetricTiers.PartitionInRange` | native/pulso_codec/src/metric_tiers.rs:226-228 | every 64-bit hash has a partition below the count |
| `MetricTiers.PartitionMonotone` | native/pulso_codec/src/metric_tiers.rs:226-228 | partitions are ranges of hashes |
| `MetricTiers.PlanRows` | native/pulso_codec/src/metric_tiers.rs:391-438 | rows become a permutation sorted by kind, rank and time; planned ranges tile them, each of its kind; the final ranges tile the hour's rows and are good |
| `MetricHour.Builder.Add` | native/pulso_codec/src/metric_tiers.rs:270-385 | appends exactly the batch's rows of the part, in order, interning their labels; it fails exactly when outputs were planned or some cell is wrong, and then with what is wrong with the first such cell: a null key, unreadable labels, a zero start, or too many series, rows or metadata |
| `MetricHour.Builder.Prepare` | native/pulso_codec/src/metric_tiers.rs:391-438 | rows are a permutation planned by kind; the hour's rows hold every series and every metric in one run |
| `MetricHour.Builder.Summarize` | native/pulso_codec/src/metric_tiers.rs:455-469 | the rollup rows are those of the hour's rows, or none without a target; their outputs tile them and are good |
| `MetricHour.Builder.Next` | native/pulso_codec/src/metric_tiers.rs:441-473 | refused exactly before outputs are planned; hands out the first planned rows as they were stored, then the rollup rows in order, and nothing exactly when none are left |
| `MetricHour.Builder.Drain` | native/pulso_codec/src/metric_tiers.rs:441-473 | until nothing is planned: of each kind, exactly the rows whose timestamps dictate it, each once, in order, and exactly the rollup rows |
| `MetricHour.Finalize` | native/pulso_codec/src/metric_tiers.rs:238-473 | a part takes all segments exactly when all its cells are good and its rows, metadata and series are within the limits, and then emits each of its rows once, in the kind its timestamp dictates; the hour's outputs hold whole series, metrics whole unless they pass the target, and no more rows and names than they should |
| `MetricHour.FinalizeAll` | native/pulso_codec/src/metric_tiers.rs:214-473 | for every partition count, the partitioned builders over the same segments succeed exactly when each part takes them, and together emit each row exactly once, in the kind its timestamp dictates; across all parts no series is in two of the hour's outputs, nor a metric that fits the target |
| `MetricTiers.EmittedOnce` | native/pulso_codec/src/metric_tiers.rs:391-438 | ranges that tile rows by kind hold each row of a kind once and no other |
| `MetricGroups.Groups` | native/pulso_codec/src/metric_tiers.rs:675-726 | the ranges tile the rows; each respects the name cap, exceeds the target only as a single series, and is cut only between series or metrics that do not fit |
| `MetricGroups.NeverSplit` | native/pulso_codec/src/metric_tiers.rs:675-726 | rows in different outputs are of different series |
| `MetricGroups.MetricWhole` | native/pulso_codec/src/metric_tiers.rs:675-726 | a metric that an output boundary cuts has more rows than the target |
| `MetricCuts.PiecesCut` | native/pulso_codec/src/metric_tiers.rs:675-726 | good ranges of rows in runs give outputs that are not empty, pass the target only with one series, have few enough names, and share no series, nor a metric unless its rows pass the target |
| `MetricCuts.WellCutTogether` | native/pulso_codec/src/metric_tiers.rs:226-228 | parts without a common metric are cut as well together as each alone |
| `MetricSeries.Series.Intern` | native/pulso_codec/src/metric_tiers.rs:96-110 | equal label sets get one number, new ones the next, and only valid labels below the limit are taken |
| `MetricSeries.Series.Ranks` | native/pulso_codec/src/metric_tiers.rs:120-137 | ranks compare as (name hash, name, labels) do |
| `MetricSeries.Rank` | native/pulso_codec/src/metric_tiers.rs:125-136 | sorting numbers and inverting the order gives each its place |
| `MetricSeries.RankedHashes` | native/pulso_codec/src/metric_tiers.rs:116-119 | a larger rank is in no earlier partition, so outputs cover ranges of name hashes |
| `MetricSeries.HourInOrder` | native/pulso_codec/src/metric_tiers.rs:391-438 | rows sorted by rank hold every series and every metric in one run, each series in time order |
| `MetricRollup.RollupRows` | native/pulso_codec/src/metric_tiers.rs:529-583 | the nested loops give, run by run, the rollup of each series: its summary, histogram flag and conflict flag, left out when empty |
| `MetricRollup.RollupBySeries` | native/pulso_codec/src/metric_tiers.rs:528-583 | a series has at most one rollup row, made of all the series' rows |
| `MetricRollup.SamplesByTime` | native/pulso_codec/src/metric_tiers.rs:536-570 | a series' sample of a timestamp is the first its rows of that timestamp hold, unless stale |
| `MetricRollup.Instant` | native/pulso_codec/src/metric_tiers.rs:536-564 | the rows of one timestamp: the first sample, and a conflict exactly when two of them read as different values |
| `MetricAggregate.SummaryConcat` | native/pulso_codec/src/metric_tiers.rs:641-669 | the aggregate of two runs of samples is determined by the aggregates of each |
| `MetricAggregate.Extremes` | native/pulso_codec/src/metric_tiers.rs:638-666 | the minimum is the earliest smallest number and the maximum the latest largest, NaN ignored; without numbers both are NaN |
| `MetricAggregate.StepsCounted` | native/pulso_codec/src/metric_tiers.rs:645-657 | changes and resets are the numbers of places where a sample differs from, or is below, the one before |
| `MetricAggregate.ResetsRecorded` | native/pulso_codec/src/metric_tiers.rs:651-653 | every reset recorded one value |
| `MetricAggregate.IncreaseRecovered` | native/pulso_codec/src/metric_tiers.rs:641-669 | over finite values, last - first + the sum of reset values is the reset-corrected increase |
| `MetricAggregate.Accumulator.Push` | native/pulso_codec/src/metric_tiers.rs:641-669 | one sample updates the aggregate as the summary says |
| `LogTiers.Grouper.AddBatch` | native/pulso_codec/src/log_tiers.rs:86-122 | a batch's rows go to their groups, each key's after the ones it holds; first-in first-out by key, key order and byte counts are kept |
| `LogTiers.Grouper.Next` | native/pulso_codec/src/log_tiers.rs:125-175 | nothing is handed out exactly when no group is full and nothing is held, or the caller is not finishing and holds no more than allowed; otherwise a maximal chunk of the first full group, the last largest group when it is a quarter of a target, or a maximal pack of the first groups |
| `LogTiers.Grouper.Drain` | native/pulso_codec/src/log_tiers.rs:125-175 | finishing terminates with nothing held; every row added is handed out once, and each key's rows in the order they were added |
| `LogTiers.Grouper.TakeChunk` | native/pulso_codec/src/log_tiers.rs:184-207 | the longest prefix of a group's batches that fits a target, at least one; the group keeps the rest or disappears |
| `LogTiers.Grouper.PackSize` | native/pulso_codec/src/log_tiers.rs:156-169 | the most groups in order that fit a pack, at least one |
| `LogTiers.Grouper.RemoveAt` | native/pulso_codec/src/log_tiers.rs:177-181 | takes one whole group out |
| `LogTiers.Conserved` | native/pulso_codec/src/log_tiers.rs:86-207 | rows added are rows handed out plus rows held, as multisets |
| `PatternMiner.Miner.Train` | native/pulso_codec/src/patterns.rs:94-120 | a line is skipped exactly when too long or not worth mining; else it is counted in the best similar template, which gives up the words that differ, or starts a template filed by shape and first word |
| `PatternMiner.Miner.Search` | native/pulso_codec/src/patterns.rs:122-146 | the live candidate no other is better than, if similar enough; none exactly when no live candidate is similar enough |
| `PatternMiner.Miner.Evict` | native/pulso_codec/src/patterns.rs:185-196 | drops the least recently used live template, the first of equal ones |
| `PatternMiner.Miner.Insert` | native/pulso_codec/src/patterns.rs:148-182 | makes room first, so at most 500 templates live; the new template is filed in its leaf, dropped ones are forgotten there |
| `PatternMiner.Miner.Finish` | native/pulso_codec/src/patterns.rs:198-232 | each pattern once, those with the largest template first; its counts are the lines that live templates rendering as it counted in each time step; all counts plus the lines of evicted templates are the lines trained; the order is largest total first, as documented, exactly when no pattern shared by several templates overtakes another, and always when no word of a line trained is `<_>` |
| `PatternReport.Merge` | native/pulso_codec/src/patterns.rs:211-231 | ranked templates reported pattern by pattern: each pattern once with the sums of its templates, in the order of its best template |
| `PatternReport.Rank` | native/pulso_codec/src/patterns.rs:199-210 | a permutation by decreasing total and then by pattern |
| `PatternReport.LargestFirstIff` | native/pulso_codec/src/patterns.rs:211-231 | a report of templates is largest total first if and only if no pattern that two templates share has a larger total than a pattern with a better best template |
| `PatternTwins.LargestMayComeLater` | native/pulso_codec/src/patterns.rs:94-232 | a miner trained on `y z` three times, `<_> a`, `<_> b`, `1 <_>` and `2 <_>` reports a total of 3 before a total of 4 |
| `Patterns.Render` | native/pulso_codec/src/patterns.rs:322-347 | the loop writes the slots a pattern shows |
| `Patterns.ShownSlots` | native/pulso_codec/src/patterns.rs:322-347 | a pattern shows every literal of its template in order, and no two wildcards that touch |
| `PatternMiner.ClusterTotal` | native/pulso_codec/src/patterns.rs:94-120 | a live template's counts add up to the lines counted in it |
| `PatternApart.NeverEqual` | native/pulso_codec/src/patterns.rs:94-182 | in every state a miner reaches, no two live templates are equal: a line that an older template of its leaf will ever cover joins a template instead of starting one |
| `PatternApart.ArrangedNew` | native/pulso_codec/src/patterns.rs:148-182 | starting a template keeps what that rests on: each template covers its first line with at least two fifths of its words literal, stands in the leaf of its first word, and was not similar enough to the first line of any later one there |
| `PatternApart.ArrangedJoined` | native/pulso_codec/src/patterns.rs:122-146 | so does joining one |
| `PatternApart.RenderAlike` | native/pulso_codec/src/patterns.rs:322-347 | templates of lines render alike if and only if they differ only in that one has the word `<_>` where the other has a wildcard |
| `PatternMiner.TwinsConfused` | native/pulso_codec/src/patterns.rs:94-232 | two live templates are different, and render alike exactly when all their differences are the word `<_>` for a wildcard |
| `PatternMiner.NoTwins` | native/pulso_codec/src/patterns.rs:94-232 | when no word of a line trained is `<_>`, no two live templates render alike |
| `Patterns.MergedTemplate` | native/pulso_codec/src/patterns.rs:314-320 | merging a line of its shape keeps a template's shape (punctuation is never a wildcard), fits the line and still fits every line it fitted |
| `Patterns.ShapeIsAlike` | native/pulso_codec/src/patterns.rs:280-288 | shapes are equal exactly when lines have the same punctuation at the same places |
| `Patterns.Tokenize` | native/pulso_codec/src/patterns.rs:235-274 | the scan yields the tokens, or nothing exactly when there are too many or too few words |
| `Patterns.Respelled` | native/pulso_codec/src/patterns.rs:235-274 | a line and its tokens spelled with single spaces have the same tokens |
| `Patterns.LexSpells` | native/pulso_codec/src/patterns.rs:235-274 | spelling well-formed tokens and splitting again gives the same tokens |
| `Patterns.BetterTransitive` | native/pulso_codec/src/patterns.rs:131-143 | the comparison of similarities that the search loop relies on is transitive |
| `Segment.KeptIsDirect` | native/pulso_codec/src/segment.rs:278-373 | the filtered path keeps a line with some slots if and only if the direct path builds exactly those slots and the line passes the filters |
| `Segment.DecodeBothWays` | native/pulso_codec/src/segment.rs:278-373 | running both paths on one line: the filtered one keeps it exactly when the direct one builds it and it passes the filters, and then both have the same slots |
| `Segment.FilteredLine` | native/pulso_codec/src/segment.rs:319-373 | the filtered path computes that outcome, building only kept lines, and restores the stacks |
| `Segment.DirectLine` | native/pulso_codec/src/segment.rs:278-315 | one pass builds the known fields of a line, refuses repeated keys, and restores the stacks |
| `Segment.Keeps` | native/pulso_codec/src/segment.rs:342-364 | the filters decide on the texts of the fields as they would on their values |
| `Segment.BuildSlots` | native/pulso_codec/src/segment.rs:366-372 | building each kept field from its own text gives what building in place gives |
| `JsonSyntax.SliceIsDocument` | native/pulso_codec/src/json_read.rs:419-423 | the slice a value was read from is a document with that value |
| `JsonSyntax.ValueDrop` | native/pulso_codec/src/json_read.rs:196-288 | octets after a value change neither the value nor where it ends |
| `JsonParser.Parser.ValueIn` | native/pulso_codec/src/json_read.rs:196-288 | parses exactly the values of the grammar with any builder, and on success restores depth and both stacks |
| `JsonParser.Parser.TakeDocument` | native/pulso_codec/src/json_read.rs:124-156 | accepts exactly whole documents, and builds what the builder makes of their tree |
| `JsonParser.Parser.SkipValue` | native/pulso_codec/src/json_read.rs:419-423 | validates exactly the values and returns the value's own slice |
| `JsonParser.Parser.RawObject` | native/pulso_codec/src/json_read.rs:374-389 | returns exactly an object's keys with the slices of their values |
| `JsonParser.Parser.TakeString` | native/pulso_codec/src/json_read.rs:425-500 | resolves escapes and surrogate pairs, or refuses |
| `JsonParser.Parser.TakeNumber` | native/pulso_codec/src/json_read.rs:511-605 | reads exactly the number grammar; integers of 64 bits exactly |
| `JsonParser.SkipAccepts` | native/pulso_codec/src/json_read.rs:626-650 | the skipping builder accepts every value |
| `NativeHistogram.StoredRoundTrip` | native/pulso_codec/src/native_histogram.rs:312-382 | every valid histogram with a reset hint up to 3 reads back from its stored bytes |
| `NativeHistogram.NoPrefixDecodes` | native/pulso_codec/src/native_histogram.rs:328-382 | no proper prefix of a stored histogram decodes |
| `NativeHistogram.DecodeExact` | native/pulso_codec/src/native_histogram.rs:328-382 | a decodable input followed by anything does not decode |
| `NativeHistogram.ToBytes` | native/pulso_codec/src/native_histogram.rs:282-326 | the appending loops write the encoding |
| `Exemplar.StoredRoundTrip` | native/pulso_codec/src/exemplar.rs:153-203 | exemplars with valid, strictly sorted labels read back from their stored bytes |
| `Exemplar.NoPrefixDecodes` | native/pulso_codec/src/exemplar.rs:172-203 | no proper prefix of stored exemplars decodes |
| `Exemplar.DecodedAcceptable` | native/pulso_codec/src/exemplar.rs:172-203 | whatever decodes has valid, strictly sorted labels |
| `Exemplar.CheckLabels` | native/pulso_codec/src/exemplar.rs:36-48 | the loop that counts characters decides label validity |
| `Wire.ReadVarint` | native/pulso_codec/src/native_histogram.rs:269-280 | reads seven-bit groups into a 64-bit word exactly as the decoder specifies |
| `Wire.AppendVarint` | native/pulso_codec/src/native_histogram.rs:282-288 | appends the varint of a word |
| `Wire.VarintRoundTrip` | native/pulso_codec/src/exemplar.rs:127-146 | every word reads back from its varint, whatever follows |
| `Wire.ZigzagInverts` | native/pulso_codec/src/native_histogram.rs:76-78 | zigzag is a bijection between 64-bit integers and words |
| `MetricDiscovery.KeyOrder` | native/pulso_codec/src/metric_discovery.rs:439-453 | byte order of series keys is the lexicographic order of label sequences, for arbitrary octets |
| `MetricDiscovery.KeyInjective` | native/pulso_codec/src/metric_discovery.rs:439-453 | different label sequences have different keys |
| `MetricDiscovery.SeriesKey` | native/pulso_codec/src/metric_discovery.rs:439-453 | the escaping loop writes the key |
| `MetricDiscovery.SeriesListing` | native/pulso_codec/src/metric_discovery.rs:270-337 | a series listing is the sorted, duplicate-free set of selected label sets |
| `MetricDiscovery.TextListing` | native/pulso_codec/src/metric_discovery.rs:270-337 | a listing of names or of values is the sorted, duplicate-free set of the texts selected label sets mention |
| `MetricDiscovery.ScanAll` | native/pulso_codec/src/metric_discovery.rs:282-337 | observing all rows succeeds exactly when every row is valid and every budget holds on the way, and ends with that listing |
| `MetricDiscovery.State.InsertEntry` | native/pulso_codec/src/metric_discovery.rs:270-281 | an entry is added exactly when the table stays within its budgets; the byte counters are the exact key bytes and JSON length |
| `MetricDiscovery.State.Observe` | native/pulso_codec/src/metric_discovery.rs:282-337 | a label set is folded in exactly when it is valid and every budget holds, and then adds exactly its contribution when selected |

## Left out

- Parquet and Arrow reading and writing, compression, Erlang terms and the foreign interface, hashing, regular expressions, float parsing and formatting: replaced by row sequences and function parameters.
- LogMetric.RollupAnswersScan: queries with line filters or pipeline stages are not part of it, as a rollup answers neither; per-line samples outside binned scans are not modelled.
- LogMetric.AnswerBothWays: states nothing about the set of series keys a scan also returns.
- LogRollup.RollupReadable: line and byte counts are unbounded integers; their 64-bit overflow is not modelled.
- LogRollup.BuildRollup: the list of source segments stored beside the rows is not modelled.
- BinnedScan.State.Scan: a series is its label map and the bins are one map keyed by series and bucket, not nested tables.
- MetricPostings.Build: the 32-bit and 16-bit casts are not modelled beyond the bounds that make them exact; two rows share a label buffer when the model says so, with equal contents.
- SpanProgram.Compile: how one leaf condition is evaluated on a span, sampled attributes of select, and the work budget are not modelled.
- SpanProgram.Search: one function reads a leaf condition for every spanset; the pass over the last spanset that also collects attributes, and could fail on its own, is not modelled.
- SpanStructure.Structural: running time is not stated.
- OtlpMerge.MergeInto: plans are values, so no aliasing or buffer reuse; building the decoded terms, hexadecimal and base64 are not modelled.
- OtlpPreflight.Preflight: requires the node and byte limits to be below the largest machine word, where a saturated counter is past them; which of several errors is reported is not stated; products of the record limit do not overflow.
- JsonInteger.Integer: a lexeme is well-formed JSON, as the parser before it guarantees.
- JsonParser.Parser.ValueIn: the schema contexts that some builders use, exact integer literals of those builders and the parser for text already known to be UTF-8 are not modelled; builders do not keep state.
- JsonParser.Parser.TakeNumber: decimals are what a given function makes of their text.
- Segment.FilteredLine: reading lines out of a compressed segment is not part of it.
- MetricHour.Builder.Next: encoding an output to a column file, its time bounds and its list of series are not modelled.
- MetricHour.Builder.Prepare: sorts by insertion instead of the library's unstable sort; the order of rows of one series and timestamp is left open.
- MetricHour.Builder.Add: the column types and null columns of a segment file are not modelled.
- MetricSeries.Series.Intern: stores each name itself, not its place in the label bytes.
- MetricAggregate.IncreaseRecovered: arithmetic is over reals, without rounding, and only for finite values.
- LogTiers.Grouper.Next: rows, keys and byte sizes are given by functions; the encoded summary of an output (time bounds, services, streams, minutes) is not modelled.
- PatternMiner.Miner.Finish: whether a pattern, used as a line filter, matches the lines it stands for is not modelled.
- PatternMiner.Miner.Search: compares similarities as exact fractions; with at most 128 words the source's doubles order the same way.
- PatternMiner.Miner.Train: counters are unbounded, and the tree has the one level of leading words the source sets.
- NativeHistogram.StoredRoundTrip: sums and counts are 64-bit patterns; converting integer histograms from the wire is left out.
- Exemplar.StoredRoundTrip: the two wire forms exemplars arrive in are left out.
- MetricDiscovery.State.Observe: the JSON of a label set is a given function; merging states is left out.
- Remote write, Loki push, trace queries and summaries, ingest limits and the Elixir application: not part of this model.
