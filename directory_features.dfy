/**
  The directory scan (`get_directory_features`): write the optional header,
  then, for every listed name ending in ".fastq" and in listing order,
  extract the file's features, append the platform and accession labels
  parsed from the name, write the row and count it. An extraction error
  aborts the scan; what was written before it stays written.

  The directory listing is a sequence of names and the files' contents a
  function from name to records. The specification of the scan takes the
  outcome of each file's extraction as a function of its name. The output
  stream is a `Sink` object that the scan appends to; the text formatting
  of a row's numbers is left out, so a row is written as its sequence of
  fields.
*/
module DirectoryFeatures {
  import opened Strings
  import opened FileFeatures

  /** The feature names of the header, in feature-vector order. */
  const Header: seq<string> := [
    "avg_length", "min_length", "max_length", "median_length", "stddev_length",
    "skew_length", "avg_avg_phred", "avg_min_phred", "avg_max_phred"]

  datatype Field = Number(value: real) | Label(text: string)

  type Row = seq<Field>

  /** One write to the output: a piece of text, or a row printed as one line. */
  datatype Chunk = Text(text: string) | Line(row: Row)

  /** The extraction error that aborted the scan, and the file it came from. */
  datatype DirError = DirError(filename: string, cause: FeatureError)

  /** The number of files processed, or the error that stopped the scan. */
  datatype DirOutcome = Processed(count: nat) | Aborted(error: DirError)

  /** The rows a scan writes and how it ends. */
  datatype Run = Run(rows: seq<Row>, outcome: DirOutcome)

  predicate IsFastq(name: string)
  {
    EndsWith(name, ".fastq")
  }

  /** A ".fastq" name has a '.' and so at least two fields. */
  lemma FastqNameHasTwoFields(name: string)
    requires IsFastq(name)
    ensures |Split(name, '.')| >= 2
  {
    assert name[|name| - 6] == '.';
    assert '.' in multiset(name);
    SplitCount(name, '.');
  }

  /**
    The labels of a ".fastq" name: field 1 of `name.split(".")` is the
    platform, field 0 the accession. Neither has a '.', and the name starts
    with the accession, a '.', and the platform.
  */
  function Labels(name: string): (labels: (string, string))
    requires IsFastq(name)
    ensures '.' !in labels.0 && '.' !in labels.1
    ensures labels.1 + "." + labels.0 <= name
  {
    FastqNameHasTwoFields(name);
    var fields := Split(name, '.');
    JoinStartsWithFirst(fields[1..], ".");
    assert name == fields[0] + "." + Join(fields[1..], ".");
    (fields[1], fields[0])
  }

  /** The first two fields of a name made of two dot-free fields and a rest. */
  lemma SplitOfDecomposition(name: string, accession: string, platform: string, rest: string)
    requires name == accession + "." + platform + rest
    requires '.' !in accession && '.' !in platform
    requires rest == [] || rest[0] == '.'
    ensures |Split(name, '.')| >= 2
    ensures Split(name, '.')[0] == accession && Split(name, '.')[1] == platform
  {
    assert name == accession + ['.'] + (platform + rest);
    SplitAfterField(accession, '.', platform + rest);
    PlatformField(platform, rest);
  }

  lemma PlatformField(platform: string, rest: string)
    requires '.' !in platform
    requires rest == [] || rest[0] == '.'
    ensures Split(platform + rest, '.')[0] == platform
  {
    if rest == [] {
      assert platform + rest == platform;
      SplitWithoutSeparator(platform, '.');
    } else {
      var tail := rest[1..];
      var spelled := platform + ['.'] + tail;
      assert forall i :: 0 <= i < |spelled| ==> spelled[i] == (platform + rest)[i];
      assert platform + rest == spelled;
      FieldBeforeSeparator(platform, tail);
    }
  }

  lemma FieldBeforeSeparator(field: string, tail: string)
    requires '.' !in field
    ensures Split(field + ['.'] + tail, '.')[0] == field
  {
    SplitAfterField(field, '.', tail);
  }

  /**
    Any decomposition of a name into a dot-free accession, '.', a dot-free
    platform and a rest that is empty or starts with '.' is the one the
    labels come from.
  */
  lemma LabelsOfDecomposition(name: string, accession: string, platform: string, rest: string)
    requires IsFastq(name)
    requires name == accession + "." + platform + rest
    requires '.' !in accession && '.' !in platform
    requires rest == [] || rest[0] == '.'
    ensures Labels(name) == (platform, accession)
  {
    SplitOfDecomposition(name, accession, platform, rest);
  }

  lemma IlluminaLabels()
    ensures Labels("SRR111.illumina.fastq") == ("illumina", "SRR111")
  {
    LabelsOfDecomposition("SRR111.illumina.fastq", "SRR111", "illumina", ".fastq");
  }

  /** The nine feature values, in header order. */
  function VectorFields(v: FeatureVector): (fields: Row)
    ensures |fields| == |Header|
  {
    [Number(v.avgLength), Number(v.minLength as real), Number(v.maxLength as real),
     Number(v.medianLength), Number(v.stddevLength), Number(v.skewLength),
     Number(v.avgAvgPhred), Number(v.avgMinPhred), Number(v.avgMaxPhred)]
  }

  /** The row for one file: its features, then the platform and accession labels. */
  function FeatureRow(v: FeatureVector, name: string): Row
    requires IsFastq(name)
  {
    VectorFields(v) + [Label(Labels(name).0), Label(Labels(name).1)]
  }

  /** Whether `row` is the row written for the file `name` with features `v`. */
  predicate RowFor(row: Row, v: FeatureVector, name: string)
  {
    && IsFastq(name)
    && |row| == |Header| + 2
    && row[..|Header|] == VectorFields(v)
    && row[|Header|] == Label(Labels(name).0)
    && row[|Header| + 1] == Label(Labels(name).1)
  }

  /** The names of the listing that end in ".fastq", in listing order. */
  function FastqNames(names: seq<string>): (fastq: seq<string>)
    ensures forall k :: 0 <= k < |fastq| ==> IsFastq(fastq[k]) && fastq[k] in names
    ensures forall n :: n in names && IsFastq(n) ==> n in fastq
    decreases |names|
  {
    if |names| == 0 then []
    else
      var last := names[|names| - 1];
      assert forall n :: n in names ==> n in names[..|names| - 1] || n == last;
      FastqNames(names[..|names| - 1]) + (if IsFastq(last) then [last] else [])
  }

  /**
    The scan over the listing `names`: one row per ".fastq" name in order,
    until the first file whose extraction fails.
  */
  function DirectoryRun(names: seq<string>, extract: string -> Outcome): (run: Run)
    ensures run.outcome.Processed? ==> run.outcome.count == |run.rows|
    decreases |names|
  {
    if |names| == 0 then Run([], Processed(0))
    else
      var before := DirectoryRun(names[..|names| - 1], extract);
      var name := names[|names| - 1];
      if before.outcome.Aborted? || !IsFastq(name) then before
      else
        match extract(name)
        case Failed(e) => Run(before.rows, Aborted(DirError(name, e)))
        case Features(v, _) => Run(before.rows + [FeatureRow(v, name)], Processed(before.outcome.count + 1))
  }

  /** The outcome of extracting each file of the directory. */
  function FileOutcomes(files: string -> seq<Record>, positions: (int, int), c: Numerics): string -> Outcome
  {
    name => ExtractFeatures(files(name), positions, c)
  }

  /** Every listed ".fastq" file can be extracted. */
  ghost predicate AllExtract(names: seq<string>, extract: string -> Outcome)
  {
    forall n :: n in names && IsFastq(n) ==> extract(n).Features?
  }

  /**
    When every ".fastq" file can be extracted, the scan processes exactly
    the ".fastq" names, writing for each one its row, in listing order.
  */
  lemma {:induction false} RunCoversFastqNames(names: seq<string>, extract: string -> Outcome)
    requires AllExtract(names, extract)
    ensures var run, fastq := DirectoryRun(names, extract), FastqNames(names);
      && run.outcome == Processed(|fastq|)
      && |run.rows| == |fastq|
      && forall k :: 0 <= k < |fastq| ==>
           RowFor(run.rows[k], extract(fastq[k]).vector, fastq[k])
    decreases |names|
  {
    if |names| > 0 {
      var prefix := names[..|names| - 1];
      AllExtractPrefix(names, extract);
      RunCoversFastqNames(prefix, extract);
      var name := names[|names| - 1];
      var before := DirectoryRun(prefix, extract);
      if IsFastq(name) {
        assert name in names;
        var v := extract(name).vector;
        assert DirectoryRun(names, extract) == Run(before.rows + [FeatureRow(v, name)], Processed(|before.rows| + 1));
        assert FastqNames(names) == FastqNames(prefix) + [name];
        assert |FastqNames(names)| == |before.rows| + 1;
        RunCoversRow(before, FastqNames(prefix), name, v, extract);
      } else {
        assert DirectoryRun(names, extract) == before;
        assert FastqNames(names) == FastqNames(prefix);
      }
    }
  }

  lemma AllExtractPrefix(names: seq<string>, extract: string -> Outcome)
    requires |names| > 0 && AllExtract(names, extract)
    ensures AllExtract(names[..|names| - 1], extract)
  {
    assert forall n :: n in names[..|names| - 1] ==> n in names;
  }

  /** The row written for a file is the row for its features and name. */
  lemma FeatureRowFor(v: FeatureVector, name: string)
    requires IsFastq(name)
    ensures RowFor(FeatureRow(v, name), v, name)
  {
  }

  /** Appending the row for one more file keeps every earlier row in place. */
  lemma RunCoversRow(before: Run, fastq: seq<string>, name: string, v: FeatureVector,
                     extract: string -> Outcome)
    requires IsFastq(name)
    requires |before.rows| == |fastq|
    requires forall k :: 0 <= k < |fastq| ==> extract(fastq[k]).Features?
    requires forall k :: 0 <= k < |fastq| ==> RowFor(before.rows[k], extract(fastq[k]).vector, fastq[k])
    requires extract(name).Features? && extract(name).vector == v
    ensures var rows := before.rows + [FeatureRow(v, name)];
      forall k :: 0 <= k < |fastq + [name]| ==>
        RowFor(rows[k], extract((fastq + [name])[k]).vector, (fastq + [name])[k])
  {
    FeatureRowFor(v, name);
    var rows := before.rows + [FeatureRow(v, name)];
    forall k | 0 <= k < |fastq + [name]|
      ensures RowFor(rows[k], extract((fastq + [name])[k]).vector, (fastq + [name])[k])
    {
      if k < |fastq| {
        assert rows[k] == before.rows[k] && (fastq + [name])[k] == fastq[k];
      } else {
        assert rows[k] == FeatureRow(v, name) && (fastq + [name])[k] == name;
      }
    }
  }

  /**
    The scan is aborted exactly when some listed ".fastq" file fails to
    extract, and then the error names such a file and its failure.
  */
  lemma {:induction false} RunAbortsOnFailure(names: seq<string>, extract: string -> Outcome)
    ensures var run := DirectoryRun(names, extract);
      && (run.outcome.Aborted? <==> !AllExtract(names, extract))
      && (run.outcome.Aborted? ==>
            var e := run.outcome.error;
            e.filename in names && IsFastq(e.filename) &&
            extract(e.filename) == Failed(e.cause))
    decreases |names|
  {
    if |names| > 0 {
      var prefix := names[..|names| - 1];
      var name := names[|names| - 1];
      assert forall n :: n in names ==> n in prefix || n == name;
      assert forall n :: n in prefix ==> n in names;
      RunAbortsOnFailure(prefix, extract);
    }
  }

  /**
    An aborted scan stopped at the first ".fastq" name of the listing whose
    extraction failed: every ".fastq" name before it extracts, and the rows
    written are those of the listing before it.
  */
  lemma {:induction false} RunAbortsAtFirstFailure(names: seq<string>, extract: string -> Outcome)
    ensures var run := DirectoryRun(names, extract);
      run.outcome.Aborted? ==>
        exists j :: 0 <= j < |names| && names[j] == run.outcome.error.filename
          && AllExtract(names[..j], extract)
          && run.rows == DirectoryRun(names[..j], extract).rows
    decreases |names|
  {
    if |names| > 0 {
      var prefix := names[..|names| - 1];
      var run := DirectoryRun(names, extract);
      var before := DirectoryRun(prefix, extract);
      if before.outcome.Aborted? {
        RunAbortsAtFirstFailure(prefix, extract);
        var j :| 0 <= j < |prefix| && prefix[j] == before.outcome.error.filename
          && AllExtract(prefix[..j], extract)
          && before.rows == DirectoryRun(prefix[..j], extract).rows;
        assert prefix[..j] == names[..j];
        assert run == before;
        assert names[j] == prefix[j];
      } else if run.outcome.Aborted? {
        RunAbortsOnFailure(prefix, extract);
        var j := |names| - 1;
        assert names[..j] == prefix;
        assert run.rows == before.rows;
        assert names[j] == run.outcome.error.filename;
      }
    }
  }

  /**
    Before an aborted scan stopped, it wrote one row for each ".fastq" name
    ahead of the failing one, in listing order.
  */
  lemma RowsBeforeAbort(names: seq<string>, extract: string -> Outcome)
    requires DirectoryRun(names, extract).outcome.Aborted?
    ensures var run := DirectoryRun(names, extract);
      exists j :: 0 <= j < |names| && names[j] == run.outcome.error.filename
        && AllExtract(names[..j], extract)
        && |run.rows| == |FastqNames(names[..j])|
        && forall k :: 0 <= k < |run.rows| ==>
             RowFor(run.rows[k], extract(FastqNames(names[..j])[k]).vector, FastqNames(names[..j])[k])
  {
    var run := DirectoryRun(names, extract);
    RunAbortsAtFirstFailure(names, extract);
    var j :| 0 <= j < |names| && names[j] == run.outcome.error.filename
      && AllExtract(names[..j], extract)
      && run.rows == DirectoryRun(names[..j], extract).rows;
    RunCoversFastqNames(names[..j], extract);
  }

  /** A name that does not end in ".fastq" leaves a running scan as it was. */
  lemma RunStepSkip(names: seq<string>, i: nat, extract: string -> Outcome)
    requires i < |names| && !IsFastq(names[i])
    requires DirectoryRun(names[..i], extract).outcome.Processed?
    ensures DirectoryRun(names[..i + 1], extract) == DirectoryRun(names[..i], extract)
  {
    assert names[..i + 1][..i] == names[..i];
  }

  /** A ".fastq" file that fails to extract aborts a running scan with its error. */
  lemma RunStepFails(names: seq<string>, i: nat, extract: string -> Outcome)
    requires i < |names| && IsFastq(names[i]) && extract(names[i]).Failed?
    requires DirectoryRun(names[..i], extract).outcome.Processed?
    ensures var before := DirectoryRun(names[..i], extract);
      DirectoryRun(names[..i + 1], extract) ==
        Run(before.rows, Aborted(DirError(names[i], extract(names[i]).error)))
  {
    assert names[..i + 1][..i] == names[..i];
  }

  /** A ".fastq" file that extracts adds its row to a running scan. */
  lemma RunStepRow(names: seq<string>, i: nat, extract: string -> Outcome)
    requires i < |names| && IsFastq(names[i]) && extract(names[i]).Features?
    requires DirectoryRun(names[..i], extract).outcome.Processed?
    ensures var before := DirectoryRun(names[..i], extract);
      DirectoryRun(names[..i + 1], extract) ==
        Run(before.rows + [FeatureRow(extract(names[i]).vector, names[i])], Processed(before.outcome.count + 1))
  {
    assert names[..i + 1][..i] == names[..i];
  }

  /** An aborted scan stays aborted, with the same rows, over a longer listing. */
  lemma {:induction false} AbortedRunStays(names: seq<string>, n: nat, extract: string -> Outcome)
    requires n <= |names|
    requires DirectoryRun(names[..n], extract).outcome.Aborted?
    ensures DirectoryRun(names, extract) == DirectoryRun(names[..n], extract)
    decreases |names| - n
  {
    if n < |names| {
      var prefix := names[..|names| - 1];
      assert prefix[..n] == names[..n];
      AbortedRunStays(prefix, n, extract);
    } else {
      assert names[..n] == names;
    }
  }

  // The header.

  /** The header's column names after the feature names `columns`. */
  function HeaderColumns(columns: seq<string>, srr: bool): seq<string>
  {
    columns + ["label"] + (if srr then ["accession_number"] else [])
  }

  /** The first header write: the feature names and "label", tab-separated. */
  function HeaderLine(columns: seq<string>): string
  {
    Join(columns, "\t") + "\t" + "label"
  }

  /**
    The three header writes: the tab-joined feature names and "label", then
    the accession column only if both `srr` and `header` are set, then the
    newline; nothing at all when `header` is not set.
  */
  function HeaderWrites(columns: seq<string>, header: bool, srr: bool): seq<string>
  {
    (if header then [HeaderLine(columns)] else [])
    + (if srr && header then ["\t" + "accession_number"] else [])
    + (if header then ["\n"] else [])
  }

  function Concat(pieces: seq<string>): string
  {
    if |pieces| == 0 then "" else pieces[0] + Concat(pieces[1..])
  }

  /**
    With `header` set, the header writes spell the tab-joined column names
    and a newline, with the accession column exactly when `srr` is set;
    without it, nothing is written before the rows.
  */
  lemma HeaderText(columns: seq<string>, header: bool, srr: bool)
    requires |columns| > 0
    ensures !header ==> HeaderWrites(columns, header, srr) == []
    ensures header ==> Concat(HeaderWrites(columns, header, srr)) == Join(HeaderColumns(columns, srr), "\t") + "\n"
  {
    if header {
      var line := HeaderLine(columns);
      JoinAppend(columns, "label", "\t");
      var writes := HeaderWrites(columns, header, srr);
      if srr {
        JoinAppend(columns + ["label"], "accession_number", "\t");
        assert writes == [line, "\t" + "accession_number", "\n"];
        assert writes[1..][1..] == ["\n"] && writes[1..][1..][1..] == [];
        assert Concat(writes[1..][1..]) == "\n";
        assert Concat(writes) == line + ("\t" + "accession_number") + "\n";
      } else {
        assert writes == [line, "\n"];
        assert writes[1..] == ["\n"] && writes[1..][1..] == [];
        assert Concat(writes[1..]) == "\n";
        assert Concat(writes) == line + "\n";
        assert HeaderColumns(columns, srr) == columns + ["label"];
      }
    }
  }

  /** Splitting the header line on tabs gives back its column names. */
  lemma HeaderColumnsRoundTrip(columns: seq<string>, srr: bool)
    requires forall k :: 0 <= k < |columns| ==> '\t' !in columns[k]
    ensures Split(Join(HeaderColumns(columns, srr), "\t"), '\t') == HeaderColumns(columns, srr)
  {
    var cols := HeaderColumns(columns, srr);
    assert forall k :: 0 <= k < |cols| ==> '\t' !in cols[k];
    assert "\t" == ['\t'];
    SplitJoin(cols, '\t');
  }

  /** No feature name contains a tab, so the header line splits back into its columns. */
  lemma HeaderNamesHaveNoTabs()
    ensures forall k :: 0 <= k < |Header| ==> '\t' !in Header[k]
  {
  }

  /**
    Every row carries both labels whatever `srr` is, so a row has as many
    fields as the header has columns exactly when `srr` is set.
  */
  lemma RowWidthMatchesHeaderIffSrr(v: FeatureVector, name: string, srr: bool)
    requires IsFastq(name)
    ensures |FeatureRow(v, name)| == |HeaderColumns(Header, srr)| <==> srr
  {
  }

  /** Splitting the header line of `get_directory_features` on tabs gives back its columns. */
  lemma HeaderLineRoundTrip(srr: bool)
    ensures Split(Join(HeaderColumns(Header, srr), "\t"), '\t') == HeaderColumns(Header, srr)
  {
    HeaderNamesHaveNoTabs();
    HeaderColumnsRoundTrip(Header, srr);
  }

  // The output stream.

  function TextChunks(pieces: seq<string>): (chunks: seq<Chunk>)
    ensures |chunks| == |pieces|
  {
    seq(|pieces|, k requires 0 <= k < |pieces| => Text(pieces[k]))
  }

  function LineChunks(rows: seq<Row>): (chunks: seq<Chunk>)
    ensures |chunks| == |rows|
  {
    seq(|rows|, k requires 0 <= k < |rows| => Line(rows[k]))
  }

  lemma LineChunksAppend(rows: seq<Row>, row: Row)
    ensures LineChunks(rows + [row]) == LineChunks(rows) + [Line(row)]
  {
  }

  /** The output stream: everything written to it, in order. */
  class Sink {
    var written: seq<Chunk>

    constructor ()
      ensures written == []
    {
      written := [];
    }

    /** `output.write(text)`. */
    method Write(text: string)
      modifies this
      ensures written == old(written) + [Text(text)]
    {
      written := written + [Text(text)];
    }

    /** `print("\t".join(map(str, row)), file=output)`. */
    method PrintRow(row: Row)
      modifies this
      ensures written == old(written) + [Line(row)]
    {
      written := written + [Line(row)];
    }
  }

  /** The header writes of `get_directory_features`. */
  method WriteHeader(output: Sink, columns: seq<string>, header: bool, srr: bool)
    modifies output
    ensures output.written == old(output.written) + TextChunks(HeaderWrites(columns, header, srr))
  {
    if header {
      output.Write(Join(columns, "\t") + "\t" + "label");
    }
    if srr && header {
      output.Write("\t" + "accession_number");
    }
    if header {
      output.Write("\n");
    }
  }

  /**
    `extract` gives, for each name, what `get_file_features` returns or raises
    on the file of that name. The trigger keeps the scan's proof from
    unfolding the extraction of every name it meets.
  */
  ghost predicate Extracts(files: string -> seq<Record>, positions: (int, int), c: Numerics,
                           extract: string -> Outcome)
  {
    forall n {:trigger ExtractFeatures(files(n), positions, c)} :: extract(n) == ExtractFeatures(files(n), positions, c)
  }

  /** `get_file_features` on the file `filename` of the directory. */
  method ExtractFile(files: string -> seq<Record>, filename: string, positions: (int, int), c: Numerics,
                     ghost extract: string -> Outcome)
    returns (features: Outcome)
    requires Extracts(files, positions, c, extract)
    ensures features == extract(filename)
  {
    features := GetFileFeatures(files(filename), positions, c);
  }

  /**
    The loop of `get_directory_features` over the listing: the output
    receives the rows of `DirectoryRun`, and the result is its outcome.
  */
  method ScanListing(output: Sink, names: seq<string>, files: string -> seq<Record>,
                     positions: (int, int), c: Numerics, ghost extract: string -> Outcome)
    returns (r: DirOutcome)
    requires Extracts(files, positions, c, extract)
    modifies output
    ensures output.written == old(output.written)
      + LineChunks(DirectoryRun(names, extract).rows)
    ensures r == DirectoryRun(names, extract).outcome
  {
    ghost var start := output.written;
    var count := 0;
    var i := 0;
    while i < |names|
      invariant 0 <= i <= |names|
      invariant DirectoryRun(names[..i], extract).outcome == Processed(count)
      invariant output.written == start + LineChunks(DirectoryRun(names[..i], extract).rows)
    {
      var filename := names[i];
      ghost var before := DirectoryRun(names[..i], extract);
      if IsFastq(filename) {
        var features := ExtractFile(files, filename, positions, c, extract);
        assert features == extract(filename);
        if features.Failed? {
          RunStepFails(names, i, extract);
          AbortedRunStays(names, i + 1, extract);
          r := Aborted(DirError(filename, features.error));
          return;
        }
        RunStepRow(names, i, extract);
        assert DirectoryRun(names[..i + 1], extract).outcome == Processed(count + 1);
        var row := FeatureRow(features.vector, filename);
        LineChunksAppend(before.rows, row);
        output.PrintRow(row);
        assert output.written == start + LineChunks(DirectoryRun(names[..i + 1], extract).rows);
        count := count + 1;
      } else {
        RunStepSkip(names, i, extract);
        assert DirectoryRun(names[..i + 1], extract) == before;
      }
      i := i + 1;
    }
    assert names[..i] == names;
    r := Processed(count);
  }

  /**
    `get_directory_features`: write the header, then scan the listing. The
    output receives the header writes and the rows of `DirectoryRun`, and
    the result is its outcome: the number of files processed, or the error
    of the file that aborted the scan.
  */
  method GetDirectoryFeatures(output: Sink, names: seq<string>, files: string -> seq<Record>,
                              positions: (int, int), header: bool, srr: bool, c: Numerics)
    returns (r: DirOutcome)
    modifies output
    ensures output.written == old(output.written) + TextChunks(HeaderWrites(Header, header, srr))
      + LineChunks(DirectoryRun(names, FileOutcomes(files, positions, c)).rows)
    ensures r == DirectoryRun(names, FileOutcomes(files, positions, c)).outcome
  {
    WriteHeader(output, Header, header, srr);
    r := ScanListing(output, names, files, positions, c, FileOutcomes(files, positions, c));
  }
}
