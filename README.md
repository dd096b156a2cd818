# Platform file features, modelled in Dafny

This project models the feature extractor of `lib/platform_file_features.py`.
It turns a directory of FASTQ files into tab-separated rows of read-length
and read-quality features, one row per file. The row carries the
sequencing platform and the accession number parsed from the file name.

Two operations are modelled, both in the imperative form the code has.

`get_file_features` is `FileFeatures.GetFileFeatures`. It first puts the
read window `(x, y)` in order, swapping the bounds only when both are
non-zero. `FileFeatures.ScanWindow` is the loop over the records, with its
`break` and `continue`. The loop keeps a 1-based position that counts every
record read. It stops at the first record past `y`, and it skips records
with an empty quality string or a position below `x`. For each kept record
it counts it, appends its read length, fixes the offset once, and appends
the read's three quality values. The loop is proved against `TallyOf`, a
function giving the accumulators of the first `n` records. `TallyOf` is
defined by the positions of the contributing records, `WindowPositions`.
`Summarize` states what is then returned, or which exception is raised:
- a division by zero when no record contributes;
- a `statistics` error from `stdev` when exactly one record contributes.

`get_directory_features` is `DirectoryFeatures.GetDirectoryFeatures`. The
output stream is a `Sink` object whose `written` field records every write
in order. The method writes the optional header (`WriteHeader`), then runs
the loop over the listing (`ScanListing`). Both are proved against plain
functions: `HeaderWrites`, and `DirectoryRun`, which gives the rows a scan
writes and how it ends. An extraction error ends the scan with that file's
error. The rows written before it stay written, as with an exception
escaping the Python loop.

The properties proved include:
- window normalisation, and the fact that the order of two non-zero bounds
  does not matter;
- exactly which records contribute, in file order;
- that the loop reads at most one record past the end bound, the one that stops it;
- the sticky offset;
- the error cases, each in both directions;
- min, max, mean and median: what they are and that they are bounded by
  the extrema;
- that sorting is unique (the sort is the one ascending permutation);
- the two filename labels, and that a ".fastq" name always has both of them;
- the header text, and that splitting the header line gives back its columns;
- that the count and the rows match the ".fastq" names in listing order, and
  that an aborted scan stops at the first ".fastq" file that fails, after the
  rows of the ones before it.

Two behaviours follow the code rather than the command-line help:
- The help text at `lib/platform_file_features.py:141` says a range of
  "0 0" processes the whole file. In the code, an end bound of 0 stops the
  loop on the first record, so nothing contributes and the averaging
  divides by zero (`ZeroEndSelectsNothing`).
- A start bound of 0 behaves like a start bound of 1 (`StartZeroIsStartOne`).

The two labels are appended to every row whatever `srr` is; `srr` only adds
a header column. So rows have as many fields as the header has columns
exactly when `srr` is set (`RowWidthMatchesHeaderIffSrr`).

Files:
- `stats.dfy`: `sum`, `min`, `max`, the mean, `sorted` and `statistics.median`
  over integers.
- `strings.dfy`: `str.join`, `str.split` with a one-character separator,
  and `str.endswith`.
- `file_features.dfy`: the per-file extraction.
- `directory_features.dfy`: labels, header, output stream and directory scan.

## Model

| member | source | states |
|---|---|---|
| Stats.Min | lib/platform_file_features.py:76 | `min(lengths)` is an element of the list and no element lies below it |
| Stats.Max | lib/platform_file_features.py:77 | `max(lengths)` is an element of the list and no element lies above it |
| Stats.Sum | lib/platform_file_features.py:75 | `sum(lengths)`; what it means for bounds is stated by `SumAtLeast` and `SumAtMost`, and `Mean` ties the mean to it |
| Stats.Mean | lib/platform_file_features.py:75 | `sum(lengths) / len(lengths)` times the count is the sum |
| Stats.MeanReal | lib/platform_file_features.py:69 | each average of a `qual_array` list, times the list's length, is the list's sum |
| Stats.Sort | lib/platform_file_features.py:78 | the sorted data that `median` works on is ascending, a permutation of the input, and as long as the input |
| Stats.AscendingPairwise | lib/platform_file_features.py:78 | ascending (each element at most the next) holds exactly when every element is at most every later one |
| Stats.AscendingPermutationUnique | lib/platform_file_features.py:78 | two ascending permutations of each other are equal, so the sorted data is determined by the input |
| Stats.SortIsAscendingPermutation | lib/platform_file_features.py:78 | sorting yields any given ascending permutation of the input |
| Stats.MeanWithinRange | lib/platform_file_features.py:75-77 | the mean length lies between the minimum and the maximum length |
| Stats.MedianWithinRange | lib/platform_file_features.py:76-78 | the median length lies between the minimum and the maximum length |
| Stats.MiddleWithin | lib/platform_file_features.py:78 | the middle element, or the mean of the two middle elements, of data within bounds is within those bounds |
| Strings.Join | lib/platform_file_features.py:96 | `sep.join(parts)`; its meaning is stated by `JoinAppend`, by `Split`'s contract and by `SplitJoin`, which make it the inverse of splitting |
| Strings.Split | lib/platform_file_features.py:107 | `name.split(".")` has at least one field, no field contains the separator, and joining the fields with the separator gives the name back |
| Strings.SplitCount | lib/platform_file_features.py:107 | the split has one more field than the name has separators |
| Strings.SplitAfterField | lib/platform_file_features.py:107 | a separator-free field followed by the separator is the first field of the split, and the rest splits on its own |
| Strings.SplitWithoutSeparator | lib/platform_file_features.py:107 | a string without the separator splits into itself alone |
| Strings.SplitJoin | lib/platform_file_features.py:107 | splitting the join of separator-free parts gives the parts back |
| Strings.EndsWith | lib/platform_file_features.py:103 | `s.endswith(suffix)`: the last characters of `s` are the suffix; used through `IsFastq` |
| Strings.JoinAppend | lib/platform_file_features.py:96 | joining one more part appends the separator and the part |
| FileFeatures.Contributes | lib/platform_file_features.py:56-59 | the record at a position passes neither the break at :56 nor the skip at :58; its role is stated by `WindowPositionsExact` |
| FileFeatures.Examined | lib/platform_file_features.py:55-57 | the number of records the loop reads: all of them, or those up to the end bound and the one after it that stops the loop; the loop is proved against it in `ScanWindow` |
| FileFeatures.OffsetAfter | lib/platform_file_features.py:62-63 | the offset after the contributing quality strings; its meaning is stated by `OffsetIsFirstNonZero`, `OffsetNeverRecomputed` and `FirstReadFixesOffset` |
| FileFeatures.Extend | lib/platform_file_features.py:60-66 | one contributing record's update of the accumulators; `TallyAtAppend` and `TallyStep` tie it to `TallyOf`, and `ScanWindow` performs it |
| FileFeatures.Normalize | lib/platform_file_features.py:45-48 | the window keeps the two bounds as a multiset; with both non-zero they come out in order; if either is zero or they are already in order they are unchanged |
| FileFeatures.WindowPositions | lib/platform_file_features.py:52-59 | every selected position among the first `n` records lies in 1..n |
| FileFeatures.WindowPositionsExact | lib/platform_file_features.py:55-59 | the selected positions strictly increase, and a position is selected exactly when it is in 1..n, inside the window, and its record has a non-empty quality string |
| FileFeatures.TallyOf | lib/platform_file_features.py:60-66 | `count`, `lengths` and the three `qual_array` lists all have one entry per contributing record |
| FileFeatures.TallyAt | lib/platform_file_features.py:60-66 | the accumulators for a list of selected positions have one entry per position |
| FileFeatures.TallyAtAppend | lib/platform_file_features.py:60-66 | one more contributing record extends the accumulators by that record: count plus one, its length appended, the offset fixed if still 0, its quality values appended |
| FileFeatures.TallyStep | lib/platform_file_features.py:55-66 | record `n + 1` extends the accumulators when it contributes and leaves them unchanged otherwise |
| FileFeatures.WindowClosed | lib/platform_file_features.py:56-57 | no record past the window's end is selected, however many records follow |
| FileFeatures.ScanWindow | lib/platform_file_features.py:44-66 | the loop reads every record up to the first one past the window's end and no further, and ends with the accumulators `TallyOf` gives for the whole file |
| FileFeatures.Summarize | lib/platform_file_features.py:69-84 | it fails exactly when a `qual_array` list is empty or fewer than two lengths were kept; it divides by zero exactly when a list is empty; on success the count is the tally's and the length entries obey `LengthSummary` |
| FileFeatures.SummaryOfLengths | lib/platform_file_features.py:75-78 | the extrema are elements bounding every length, the mean is sum over count, and mean and median lie between the extrema |
| FileFeatures.ExtractFeatures | lib/platform_file_features.py:32-84 | what `get_file_features` returns or raises; stated by `FileFeaturesOutcome`, `LengthFeatures`, `EmptyWindowIff`, `SwappedWindow`, `StartZeroIsStartOne`, `ZeroEndSelectsNothing` and `ThreeReads`, and performed by `GetFileFeatures` |
| FileFeatures.GetFileFeatures | lib/platform_file_features.py:32-84 | the method's result is `ExtractFeatures`: normalise, scan, summarise |
| FileFeatures.OffsetIsFirstNonZero | lib/platform_file_features.py:62-63 | a non-zero offset is the `get_offset` value of some contributing read, and every earlier read gave 0; the offset stays 0 exactly when every lookup gives 0 |
| FileFeatures.OffsetNeverRecomputed | lib/platform_file_features.py:62-63 | once the offset is non-zero, later reads leave it unchanged |
| FileFeatures.FirstReadFixesOffset | lib/platform_file_features.py:50-63 | when the first contributing read gives a non-zero offset, that is the offset for the whole file |
| FileFeatures.Selected | lib/platform_file_features.py:45-59 | the positions selected by a window pair are positions of the file's records |
| FileFeatures.FileFeaturesOutcome | lib/platform_file_features.py:52-84 | no contributing record means division by zero, exactly one means a `stdev` error, two or more mean success, each case in both directions; the count is the number of contributing records, and the length entries summarise their lengths |
| FileFeatures.LengthFeatures | lib/platform_file_features.py:75-78 | on success at least two records contribute, and the length entries are the mean, min, max and median of their read lengths in file order |
| FileFeatures.EmptyWindowIff | lib/platform_file_features.py:69 | the extractor divides by zero exactly when no record contributes |
| FileFeatures.ZeroEndSelectsNothing | lib/platform_file_features.py:56-57 | an end bound of 0 selects nothing, so the extractor divides by zero |
| FileFeatures.NothingBelowOne | lib/platform_file_features.py:56-57 | a window ending below position 1 selects nothing |
| FileFeatures.SwappedWindow | lib/platform_file_features.py:47-48 | with both bounds non-zero, `(x, y)` and `(y, x)` select the same records and give the same result |
| FileFeatures.StartBelowOne | lib/platform_file_features.py:58 | start bounds of at most 1 select the same records |
| FileFeatures.StartZeroIsStartOne | lib/platform_file_features.py:58-59 | for a non-negative end bound, a start of 0 selects the same records and gives the same result as a start of 1 |
| FileFeatures.WholeWindow | lib/platform_file_features.py:55-59 | a window covering all records selects every record when each has a quality string |
| FileFeatures.ReadLengths | lib/platform_file_features.py:61 | there is one read length per record |
| FileFeatures.ThreeRecordsAllSelected | lib/platform_file_features.py:55-61 | in the window (1, 3000), a three-read file with qualities selects positions 1, 2, 3, and their lengths are the file's read lengths |
| FileFeatures.ThreeReads | lib/platform_file_features.py:32-84 | a three-read file with lengths 100, 150, 110 gives count 3, mean 120, min 100, max 150, median 110 |
| DirectoryFeatures.IsFastq | lib/platform_file_features.py:103 | the suffix filter `filename.endswith(".fastq")`; `FastqNames` and `FastqNameHasTwoFields` state what it keeps |
| DirectoryFeatures.FastqNameHasTwoFields | lib/platform_file_features.py:107-109 | a name ending in ".fastq" splits on "." into at least two fields, so `labels[1]` and `labels[0]` exist |
| DirectoryFeatures.Labels | lib/platform_file_features.py:107-109 | neither label contains a '.', and the name starts with the accession, a '.', and the platform |
| DirectoryFeatures.SplitOfDecomposition | lib/platform_file_features.py:107 | a name made of a dot-free accession, '.', a dot-free platform and a rest starting with '.' (or empty) splits with those first two fields |
| DirectoryFeatures.LabelsOfDecomposition | lib/platform_file_features.py:107-109 | any such decomposition of a ".fastq" name is the one the labels are taken from |
| DirectoryFeatures.IlluminaLabels | lib/platform_file_features.py:107-109 | "SRR111.illumina.fastq" gives platform "illumina" and accession "SRR111" |
| DirectoryFeatures.VectorFields | lib/platform_file_features.py:74-84 | a row's feature fields are as many as the header's feature names |
| DirectoryFeatures.FeatureRow | lib/platform_file_features.py:107-110 | the row for one file; `FeatureRowFor` and `RowWidthMatchesHeaderIffSrr` state its layout and width |
| DirectoryFeatures.FeatureRowFor | lib/platform_file_features.py:107-110 | step equation: `FeatureRow` read index by index as `RowFor`, the nine features in header order, then the platform, then the accession |
| DirectoryFeatures.FastqNames | lib/platform_file_features.py:102-103 | the filtered names all end in ".fastq" and come from the listing, and every listed ".fastq" name is among them |
| DirectoryFeatures.DirectoryRun | lib/platform_file_features.py:101-112 | a scan that completes has counted exactly the rows it wrote |
| DirectoryFeatures.RunCoversFastqNames | lib/platform_file_features.py:102-112 | when every ".fastq" file extracts, the count is the number of ".fastq" names, and the k-th row is the k-th such file's row, in listing order |
| DirectoryFeatures.RunAbortsOnFailure | lib/platform_file_features.py:104-106 | the scan aborts exactly when some listed ".fastq" file fails to extract, and the error names such a file with its failure |
| DirectoryFeatures.RunAbortsAtFirstFailure | lib/platform_file_features.py:102-110 | an aborted scan stopped at a listed name that is the failing file, every ".fastq" name before it extracts, and the rows written are those of the listing before it |
| DirectoryFeatures.RowsBeforeAbort | lib/platform_file_features.py:102-111 | an aborted scan wrote, in listing order, the row of each ".fastq" name before the first failing one, and no other row |
| DirectoryFeatures.RunStepSkip | lib/platform_file_features.py:103 | step equation for `DirectoryRun` at a prefix: a name not ending in ".fastq" leaves a running scan unchanged |
| DirectoryFeatures.RunStepFails | lib/platform_file_features.py:104-106 | step equation for `DirectoryRun` at a prefix: a failing ".fastq" file aborts a running scan with its error and keeps the rows written so far |
| DirectoryFeatures.RunStepRow | lib/platform_file_features.py:104-111 | step equation for `DirectoryRun` at a prefix: an extracting ".fastq" file appends its row and adds one to the count |
| DirectoryFeatures.AbortedRunStays | lib/platform_file_features.py:104-106 | once aborted, later names change neither the rows nor the outcome |
| DirectoryFeatures.HeaderWrites | lib/platform_file_features.py:95-100 | the three conditional header writes; `HeaderText` states the text they spell and `WriteHeader` performs them |
| DirectoryFeatures.HeaderText | lib/platform_file_features.py:95-100 | with `header` set, the header writes spell the tab-joined column names, with "accession_number" exactly when `srr` is set, then a newline; without it nothing is written |
| DirectoryFeatures.HeaderColumnsRoundTrip | lib/platform_file_features.py:96-98 | splitting the header line on tabs gives back its column names |
| DirectoryFeatures.HeaderNamesHaveNoTabs | lib/platform_file_features.py:19-29 | no feature name contains a tab |
| DirectoryFeatures.HeaderLineRoundTrip | lib/platform_file_features.py:95-100 | splitting the header line actually written on tabs gives back the nine feature names, "label" and, with `srr`, "accession_number" |
| DirectoryFeatures.RowWidthMatchesHeaderIffSrr | lib/platform_file_features.py:97-109 | a row has as many fields as the header has columns exactly when `srr` is set |
| DirectoryFeatures.Sink.constructor | lib/platform_file_features.py:91 | a fresh output stream holds nothing |
| DirectoryFeatures.Sink.Write | lib/platform_file_features.py:96 | `output.write` appends its text and nothing else |
| DirectoryFeatures.Sink.PrintRow | lib/platform_file_features.py:110 | printing a row appends that row as one line and nothing else |
| DirectoryFeatures.WriteHeader | lib/platform_file_features.py:95-100 | the output receives exactly the header writes `HeaderWrites` gives |
| DirectoryFeatures.ExtractFile | lib/platform_file_features.py:104-106 | the file's extraction is `get_file_features` on its records |
| DirectoryFeatures.ScanListing | lib/platform_file_features.py:101-112 | the output receives the rows of `DirectoryRun` in order, and the result is its outcome |
| DirectoryFeatures.GetDirectoryFeatures | lib/platform_file_features.py:87-112 | the output receives the header writes and then the rows, and the result is the number of files processed or the error that stopped the scan |

## Left out

- Floating point: Python floats are exact reals, so rounding in `/`, `sum` and `median` is not modelled.
- `get_qual_features` and `transform_phred_to_prob` (`lib/platform_file_features.py:33-41`): per-read floating-point work. A read's three quality values come from an uninterpreted function of its quality string and the offset in force.
- `get_offset` and `nonnegative` live in `platform_features`, which is not part of this model. `get_offset` is an uninterpreted function; `nonnegative` only checks the command-line range.
- `statistics.stdev` and `scipy.stats.skew`: foreign numerics, modelled as uninterpreted functions of the lengths. The only behaviour kept is the `stdev` error for fewer than two lengths.
- `SeqReader`, `reader.close()`, `os.listdir`, `os.path.join` and file opening: I/O. Records are a sequence, the listing is a sequence of names in whatever order the system gives, and a directory's files are a function from name to records.
- Errors raised while reading a file (malformed FASTQ, unreadable files) are not modelled; only the two exceptions the pure code raises are.
- `str()` formatting of the numeric fields and the tab-joined text of a row (`lib/platform_file_features.py:110`): a row is written as its sequence of fields.
- Debug printing to stderr (`lib/platform_file_features.py:67-68`, `:70-72`).
- `main` (`lib/platform_file_features.py:115-193`): argument parsing, timing and choosing the output file.
- Stats.Median: the function has no contract of its own; what it means is stated by `MiddleWithin`, `MedianWithinRange` and `LengthFeatures`.
- DirectoryFeatures.RunCoversFastqNames: the count and rows are stated only when every ".fastq" file extracts, because otherwise the scan ends with an exception; that case is stated by `RunAbortsOnFailure`, `RunAbortsAtFirstFailure` and `RowsBeforeAbort`.
