/**
  Per-file feature extraction (`get_file_features`): normalise the read
  window, walk the FASTQ records in file order with a 1-based position that
  counts every record read, stop at the first record past the window's end,
  skip records with an empty quality string or before the window's start,
  and summarise the read lengths and per-read quality values of the records
  that contribute.

  The record source is a sequence. `get_offset`, the per-read quality
  features (`get_qual_features`, floating point over `transform_phred_to_prob`),
  `statistics.stdev` and `scipy.stats.skew` are collaborators whose insides
  are not modelled: they are the function-valued fields of `Numerics`.
*/
module FileFeatures {
  import opened Stats

  /** One FASTQ record as the reader yields it: (id, read, qual, extra). */
  datatype Record = Record(id: string, read: string, qual: string, extra: string)

  /** What `get_qual_features` returns for one read. */
  datatype QualFeatures = QualFeatures(avgPhred: real, minPhred: real, maxPhred: real)

  /** The collaborators the extractor calls but whose insides are left out. */
  datatype Numerics = Numerics(
    getOffset: string -> int,
    qualFeatures: (string, int) -> QualFeatures,
    stdev: seq<int> -> real,
    skew: seq<int> -> real)

  /** The feature vector, in the order of the output's header. */
  datatype FeatureVector = FeatureVector(
    avgLength: real, minLength: int, maxLength: int, medianLength: real,
    stddevLength: real, skewLength: real,
    avgAvgPhred: real, avgMinPhred: real, avgMaxPhred: real)

  /**
    The exceptions the extractor raises: `ZeroDivisionError` when averaging
    an empty list, `statistics.StatisticsError` when `stdev` gets fewer than
    two lengths.
  */
  datatype FeatureError = DivisionByZero | TooFewForStdev

  /** The pair `(features, count)` the extractor returns, or the exception it raises. */
  datatype Outcome = Features(vector: FeatureVector, count: nat) | Failed(error: FeatureError)

  /**
    The accumulators of the scan: `count`, `offset`, `lengths` and the three
    lists of `qual_array`.
  */
  datatype Tally = Tally(
    count: nat, offset: int, lengths: seq<int>,
    avgPhreds: seq<real>, minPhreds: seq<real>, maxPhreds: seq<real>)

  function MaxInt(a: int, b: int): int { if a < b then b else a }

  /**
    Window normalisation: the bounds are put in order only when both are
    non-zero; a zero bound leaves the pair as given.
  */
  function Normalize(x: int, y: int): (w: (int, int))
    ensures multiset{w.0, w.1} == multiset{x, y}
    ensures x != 0 && y != 0 ==> w.0 <= w.1
    ensures x == 0 || y == 0 || x <= y ==> w == (x, y)
  {
    if x != 0 && y != 0 && y < x then (y, x) else (x, y)
  }

  /** The record at 1-based position `p` contributes to the features. */
  predicate Contributes(records: seq<Record>, lo: int, hi: int, p: nat)
    requires 1 <= p <= |records|
  {
    lo <= p <= hi && |records[p - 1].qual| > 0
  }

  /**
    The 1-based positions, among the first `n` records, of the records that
    contribute: exactly those in the window with a non-empty quality
    string, in increasing (file) order.
  */
  function WindowPositions(records: seq<Record>, lo: int, hi: int, n: nat): (ps: seq<nat>)
    requires n <= |records|
    ensures forall k :: 0 <= k < |ps| ==> 1 <= ps[k] <= n
    decreases n
  {
    if n == 0 then []
    else
      var before := WindowPositions(records, lo, hi, n - 1);
      var last := if Contributes(records, lo, hi, n) then [n] else [];
      assert forall k :: 0 <= k < |before| ==> (before + last)[k] == before[k];
      before + last
  }

  /**
    The positions are strictly increasing, and a position is among them
    exactly when it is one of the first `n` and its record contributes.
  */
  lemma {:induction false} WindowPositionsExact(records: seq<Record>, lo: int, hi: int, n: nat)
    requires n <= |records|
    ensures var ps := WindowPositions(records, lo, hi, n);
      && (forall k, l :: 0 <= k < l < |ps| ==> ps[k] < ps[l])
      && (forall p :: p in ps <==> 1 <= p <= n && Contributes(records, lo, hi, p))
    decreases n
  {
    if n > 0 {
      WindowPositionsExact(records, lo, hi, n - 1);
      var before := WindowPositions(records, lo, hi, n - 1);
      var last := if Contributes(records, lo, hi, n) then [n] else [];
      AppendPosition(before, last, n);
    }
  }

  /** Appending `n`, or nothing, to increasing positions below `n`. */
  lemma AppendPosition(before: seq<nat>, last: seq<nat>, n: nat)
    requires n >= 1 && (last == [] || last == [n])
    requires forall k :: 0 <= k < |before| ==> 1 <= before[k] < n
    requires forall k, l :: 0 <= k < l < |before| ==> before[k] < before[l]
    ensures forall k :: 0 <= k < |before + last| ==> 1 <= (before + last)[k] <= n
    ensures forall k, l :: 0 <= k < l < |before + last| ==> (before + last)[k] < (before + last)[l]
    ensures forall p :: p in before + last <==> p in before || p in last
  {
  }

  predicate InRange(records: seq<Record>, ps: seq<nat>)
  {
    forall k :: 0 <= k < |ps| ==> 1 <= ps[k] <= |records|
  }

  /** The read lengths of the records at the given positions, in that order. */
  function LengthsAt(records: seq<Record>, ps: seq<nat>): (ls: seq<int>)
    requires InRange(records, ps)
  {
    seq(|ps|, k requires 0 <= k < |ps| => |records[ps[k] - 1].read|)
  }

  /** The quality strings of the records at the given positions, in that order. */
  function QualsAt(records: seq<Record>, ps: seq<nat>): (qs: seq<string>)
    requires InRange(records, ps)
  {
    seq(|ps|, k requires 0 <= k < |ps| => records[ps[k] - 1].qual)
  }

  /**
    The offset after the contributing quality strings `quals` have been seen:
    it starts at 0 and is looked up again only while it is still 0.
  */
  function OffsetAfter(quals: seq<string>, getOffset: string -> int): int
    decreases |quals|
  {
    if |quals| == 0 then 0
    else
      var before := OffsetAfter(quals[..|quals| - 1], getOffset);
      if before == 0 then getOffset(quals[|quals| - 1]) else before
  }

  /**
    The quality features of each contributing read, computed with the offset
    in force once that read has been seen.
  */
  function QualRows(quals: seq<string>, c: Numerics): (rows: seq<QualFeatures>)
  {
    seq(|quals|, k requires 0 <= k < |quals| =>
      c.qualFeatures(quals[k], OffsetAfter(quals[..k + 1], c.getOffset)))
  }

  /**
    The accumulators after the first `n` records, defined by the records
    that contribute among them. All lists have one entry per contributing
    record.
  */
  function TallyOf(records: seq<Record>, lo: int, hi: int, n: nat, c: Numerics): (t: Tally)
    requires n <= |records|
    ensures t.count == |t.lengths| == |t.avgPhreds| == |t.minPhreds| == |t.maxPhreds|
    ensures t.count == |WindowPositions(records, lo, hi, n)|
  {
    TallyAt(records, WindowPositions(records, lo, hi, n), c)
  }

  /** The accumulators after the records at positions `ps` have contributed. */
  function TallyAt(records: seq<Record>, ps: seq<nat>, c: Numerics): (t: Tally)
    requires InRange(records, ps)
    ensures t.count == |t.lengths| == |t.avgPhreds| == |t.minPhreds| == |t.maxPhreds| == |ps|
  {
    var qs := QualsAt(records, ps);
    var rows := QualRows(qs, c);
    Tally(|ps|, OffsetAfter(qs, c.getOffset), LengthsAt(records, ps),
      AvgColumn(rows), MinColumn(rows), MaxColumn(rows))
  }

  /** The three lists of `qual_array`, one entry per read. */
  function AvgColumn(rows: seq<QualFeatures>): (col: seq<real>)
  {
    seq(|rows|, k requires 0 <= k < |rows| => rows[k].avgPhred)
  }

  function MinColumn(rows: seq<QualFeatures>): (col: seq<real>)
  {
    seq(|rows|, k requires 0 <= k < |rows| => rows[k].minPhred)
  }

  function MaxColumn(rows: seq<QualFeatures>): (col: seq<real>)
  {
    seq(|rows|, k requires 0 <= k < |rows| => rows[k].maxPhred)
  }

  /** The accumulators after one more contributing record `r`. */
  function Extend(t: Tally, r: Record, c: Numerics): Tally
  {
    var offset := if t.offset == 0 then c.getOffset(r.qual) else t.offset;
    var q := c.qualFeatures(r.qual, offset);
    Tally(t.count + 1, offset, t.lengths + [|r.read|],
      t.avgPhreds + [q.avgPhred], t.minPhreds + [q.minPhred], t.maxPhreds + [q.maxPhred])
  }

  lemma QualRowsAppend(quals: seq<string>, q: string, c: Numerics)
    ensures QualRows(quals + [q], c) ==
      QualRows(quals, c) + [c.qualFeatures(q, OffsetAfter(quals + [q], c.getOffset))]
  {
    var qs := quals + [q];
    var last := c.qualFeatures(q, OffsetAfter(qs, c.getOffset));
    var lhs, rhs := QualRows(qs, c), QualRows(quals, c) + [last];
    forall k | 0 <= k < |qs|
      ensures lhs[k] == rhs[k]
    {
      if k < |quals| {
        assert qs[..k + 1] == quals[..k + 1];
      } else {
        assert qs[..k + 1] == qs;
      }
    }
  }

  lemma ColumnsAppend(rows: seq<QualFeatures>, q: QualFeatures)
    ensures AvgColumn(rows + [q]) == AvgColumn(rows) + [q.avgPhred]
    ensures MinColumn(rows + [q]) == MinColumn(rows) + [q.minPhred]
    ensures MaxColumn(rows + [q]) == MaxColumn(rows) + [q.maxPhred]
  {
  }

  /** Selecting one more position appends its quality string and its read length. */
  lemma PositionsAppend(records: seq<Record>, ps: seq<nat>, p: nat)
    requires InRange(records, ps) && 1 <= p <= |records|
    ensures InRange(records, ps + [p])
    ensures QualsAt(records, ps + [p]) == QualsAt(records, ps) + [records[p - 1].qual]
    ensures LengthsAt(records, ps + [p]) == LengthsAt(records, ps) + [|records[p - 1].read|]
  {
  }

  /** One more contributing position extends the accumulators by its record. */
  lemma TallyAtAppend(records: seq<Record>, ps: seq<nat>, p: nat, c: Numerics)
    requires InRange(records, ps) && 1 <= p <= |records|
    ensures InRange(records, ps + [p])
    ensures TallyAt(records, ps + [p], c) == Extend(TallyAt(records, ps, c), records[p - 1], c)
  {
    var r := records[p - 1];
    PositionsAppend(records, ps, p);
    var qs := QualsAt(records, ps);
    var qs' := QualsAt(records, ps + [p]);
    assert qs' == qs + [r.qual];
    assert qs'[..|qs'| - 1] == qs;
    var t := TallyAt(records, ps, c);
    var offset := OffsetAfter(qs', c.getOffset);
    assert offset == if t.offset == 0 then c.getOffset(r.qual) else t.offset;
    var q := c.qualFeatures(r.qual, offset);
    QualRowsAppend(qs, r.qual, c);
    ColumnsAppend(QualRows(qs, c), q);
  }

  /** One step of the scan: how record `n + 1` changes the accumulators. */
  lemma TallyStep(records: seq<Record>, lo: int, hi: int, n: nat, c: Numerics)
    requires n < |records|
    ensures TallyOf(records, lo, hi, n + 1, c) ==
      if Contributes(records, lo, hi, n + 1) then Extend(TallyOf(records, lo, hi, n, c), records[n], c)
      else TallyOf(records, lo, hi, n, c)
  {
    var ps := WindowPositions(records, lo, hi, n);
    if Contributes(records, lo, hi, n + 1) {
      assert WindowPositions(records, lo, hi, n + 1) == ps + [n + 1];
      TallyAtAppend(records, ps, n + 1, c);
    } else {
      assert WindowPositions(records, lo, hi, n + 1) == ps;
    }
  }

  /** Past the window's end nothing more contributes. */
  lemma {:induction false} WindowClosed(records: seq<Record>, lo: int, hi: int, n: nat, m: nat)
    requires hi <= n <= m <= |records|
    ensures WindowPositions(records, lo, hi, m) == WindowPositions(records, lo, hi, n)
    decreases m - n
  {
    if n < m {
      WindowClosed(records, lo, hi, n, m - 1);
    }
  }

  /**
    How many records the loop reads from the source: every record up to
    and including the first one past the window's end.
  */
  function Examined(n: nat, hi: int): nat
  {
    if n <= MaxInt(hi, 0) then n else MaxInt(hi, 0) + 1
  }

  /**
    The loop of `get_file_features` over the window `[lo, hi]` (already
    normalised). Returns the final `position` and the accumulators.
  */
  method ScanWindow(records: seq<Record>, lo: int, hi: int, c: Numerics)
    returns (position: nat, t: Tally)
    ensures position == Examined(|records|, hi)
    ensures t == TallyOf(records, lo, hi, |records|, c)
  {
    position := 0;
    var count: nat := 0;
    var offset := 0;
    var lengths: seq<int> := [];
    var avgPhreds: seq<real>, minPhreds: seq<real>, maxPhreds: seq<real> := [], [], [];
    while position < |records|
      invariant position <= |records|
      invariant position <= MaxInt(hi, 0)
      invariant Tally(count, offset, lengths, avgPhreds, minPhreds, maxPhreds) ==
        TallyOf(records, lo, hi, position, c)
    {
      var record := records[position];
      TallyStep(records, lo, hi, position, c);
      position := position + 1;
      if position > hi {
        WindowClosed(records, lo, hi, position - 1, |records|);
        break;
      }
      if |record.qual| == 0 || position < lo {
        continue;
      }
      count := count + 1;
      lengths := lengths + [|record.read|];
      if offset == 0 {
        offset := c.getOffset(record.qual);
      }
      var q := c.qualFeatures(record.qual, offset);
      avgPhreds, minPhreds, maxPhreds := avgPhreds + [q.avgPhred], minPhreds + [q.minPhred], maxPhreds + [q.maxPhred];
    }
    t := Tally(count, offset, lengths, avgPhreds, minPhreds, maxPhreds);
  }

  /**
    The value returned at the end of `get_file_features`, or the exception
    raised on the way: averaging an empty `qual_array` list or `lengths`
    divides by zero, and `stdev` needs at least two lengths. On success the
    length summaries are ordered as the extrema and the averages require.
  */
  function Summarize(t: Tally, c: Numerics): (r: Outcome)
    ensures r.Failed? <==>
      |t.avgPhreds| == 0 || |t.minPhreds| == 0 || |t.maxPhreds| == 0 || |t.lengths| < 2
    ensures r == Failed(DivisionByZero) <==>
      |t.avgPhreds| == 0 || |t.minPhreds| == 0 || |t.maxPhreds| == 0 || |t.lengths| == 0
    ensures r.Features? ==> r.count == t.count
    ensures r.Features? ==> LengthSummary(r.vector.avgLength, r.vector.minLength,
      r.vector.maxLength, r.vector.medianLength, t.lengths)
  {
    if |t.avgPhreds| == 0 || |t.minPhreds| == 0 || |t.maxPhreds| == 0 then Failed(DivisionByZero)
    else if |t.lengths| == 0 then Failed(DivisionByZero)
    else if |t.lengths| < 2 then Failed(TooFewForStdev)
    else
      SummaryOfLengths(t.lengths);
      Features(
        FeatureVector(
          Mean(t.lengths), Min(t.lengths), Max(t.lengths), Median(t.lengths),
          c.stdev(t.lengths), c.skew(t.lengths),
          MeanReal(t.avgPhreds), MeanReal(t.minPhreds), MeanReal(t.maxPhreds)),
        t.count)
  }

  /**
    The length entries of a feature vector agree with the lengths they
    summarise: the extrema are elements bounding every length, the mean is
    the sum divided by the count, and mean and median lie between the extrema.
  */
  ghost predicate LengthSummary(avg: real, min: int, max: int, median: real, lengths: seq<int>)
  {
    && min in lengths && max in lengths
    && (forall x :: x in lengths ==> min <= x <= max)
    && avg * (|lengths| as real) == Sum(lengths) as real
    && min as real <= avg <= max as real
    && min as real <= median <= max as real
  }

  lemma SummaryOfLengths(lengths: seq<int>)
    requires |lengths| > 0
    ensures LengthSummary(Mean(lengths), Min(lengths), Max(lengths), Median(lengths), lengths)
  {
    MeanWithinRange(lengths);
    MedianWithinRange(lengths);
  }

  /** What `get_file_features(records, positions)` returns or raises. */
  function ExtractFeatures(records: seq<Record>, positions: (int, int), c: Numerics): Outcome
  {
    var w := Normalize(positions.0, positions.1);
    Summarize(TallyOf(records, w.0, w.1, |records|, c), c)
  }

  /** `get_file_features`: normalise the window, scan it, summarise. */
  method GetFileFeatures(records: seq<Record>, positions: (int, int), c: Numerics)
    returns (r: Outcome)
    ensures r == ExtractFeatures(records, positions, c)
  {
    var x, y := positions.0, positions.1;
    if x != 0 && y != 0 && y < x {
      x, y := y, x;
    }
    assert (x, y) == Normalize(positions.0, positions.1);
    var _, t := ScanWindow(records, x, y, c);
    r := Summarize(t, c);
  }

  // Sticky offset detection.

  /**
    The offset is the first non-zero `get_offset` value among the
    contributing quality strings, and stays 0 exactly when every lookup
    gives 0.
  */
  lemma {:induction false} OffsetIsFirstNonZero(quals: seq<string>, g: string -> int)
    ensures OffsetAfter(quals, g) != 0 ==>
      exists k :: 0 <= k < |quals| && OffsetAfter(quals, g) == g(quals[k]) &&
        forall j :: 0 <= j < k ==> g(quals[j]) == 0
    ensures OffsetAfter(quals, g) == 0 <==> forall k :: 0 <= k < |quals| ==> g(quals[k]) == 0
    decreases |quals|
  {
    if |quals| > 0 {
      var n := |quals|;
      var prefix := quals[..n - 1];
      OffsetIsFirstNonZero(prefix, g);
      assert forall j :: 0 <= j < n - 1 ==> prefix[j] == quals[j];
      if OffsetAfter(prefix, g) != 0 {
        var k :| 0 <= k < n - 1 && OffsetAfter(prefix, g) == g(prefix[k]) &&
          forall j :: 0 <= j < k ==> g(prefix[j]) == 0;
        assert OffsetAfter(quals, g) == g(quals[k]);
      } else if g(quals[n - 1]) != 0 {
        assert OffsetAfter(quals, g) == g(quals[n - 1]);
      }
    }
  }

  /** Once the offset is non-zero it is never looked up again. */
  lemma {:induction false} OffsetNeverRecomputed(quals: seq<string>, g: string -> int, k: nat)
    requires k <= |quals|
    requires OffsetAfter(quals[..k], g) != 0
    ensures OffsetAfter(quals, g) == OffsetAfter(quals[..k], g)
    decreases |quals| - k
  {
    if k < |quals| {
      var prefix := quals[..|quals| - 1];
      assert prefix[..k] == quals[..k];
      OffsetNeverRecomputed(prefix, g, k);
    } else {
      assert quals[..k] == quals;
    }
  }

  /** A first contributing read with a non-zero offset fixes the offset for the file. */
  lemma FirstReadFixesOffset(quals: seq<string>, g: string -> int)
    requires |quals| > 0 && g(quals[0]) != 0
    ensures OffsetAfter(quals, g) == g(quals[0])
  {
    assert quals[..1][..0] == [];
    OffsetNeverRecomputed(quals, g, 1);
  }

  // The window, as the code treats it.

  /** The positions of the records that contribute for a window pair. */
  function Selected(records: seq<Record>, positions: (int, int)): (ps: seq<nat>)
    ensures InRange(records, ps)
  {
    var w := Normalize(positions.0, positions.1);
    WindowPositions(records, w.0, w.1, |records|)
  }

  /**
    The outcome is decided by how many records contribute: none is a
    division by zero, one is a `stdev` error, and otherwise the count is the
    number of contributing records and the length summaries describe their
    read lengths in file order.
  */
  lemma FileFeaturesOutcome(records: seq<Record>, positions: (int, int), c: Numerics)
    ensures var r, ps := ExtractFeatures(records, positions, c), Selected(records, positions);
      && (r == Failed(DivisionByZero) <==> |ps| == 0)
      && (r == Failed(TooFewForStdev) <==> |ps| == 1)
      && (r.Features? <==> |ps| >= 2)
      && (r.Features? ==> r.count == |ps|)
      && (r.Features? ==>
            LengthSummary(r.vector.avgLength, r.vector.minLength, r.vector.maxLength,
              r.vector.medianLength, LengthsAt(records, ps)))
  {
  }

  /**
    The length features are the mean, minimum, maximum and median of the
    read lengths of the contributing records.
  */
  lemma LengthFeatures(records: seq<Record>, positions: (int, int), c: Numerics)
    ensures var r, ps := ExtractFeatures(records, positions, c), Selected(records, positions);
      r.Features? ==>
        && |ps| >= 2
        && r.vector.avgLength == Mean(LengthsAt(records, ps))
        && r.vector.minLength == Min(LengthsAt(records, ps))
        && r.vector.maxLength == Max(LengthsAt(records, ps))
        && r.vector.medianLength == Median(LengthsAt(records, ps))
  {
  }

  /**
    No record contributes exactly when the extractor fails with a division
    by zero.
  */
  lemma EmptyWindowIff(records: seq<Record>, positions: (int, int), c: Numerics)
    ensures var w := Normalize(positions.0, positions.1);
      ExtractFeatures(records, positions, c) == Failed(DivisionByZero) <==>
        forall p :: 1 <= p <= |records| ==> !Contributes(records, w.0, w.1, p)
  {
    var ps := Selected(records, positions);
    FileFeaturesOutcome(records, positions, c);
    var w := Normalize(positions.0, positions.1);
    WindowPositionsExact(records, w.0, w.1, |records|);
    if |ps| > 0 {
      assert ps[0] in ps;
    }
  }

  /**
    An end bound of 0 selects nothing, so the extractor divides by zero:
    "0 0" does not process the whole file.
  */
  lemma ZeroEndSelectsNothing(records: seq<Record>, x: int, c: Numerics)
    ensures Selected(records, (x, 0)) == []
    ensures ExtractFeatures(records, (x, 0), c) == Failed(DivisionByZero)
  {
    NothingBelowOne(records, Normalize(x, 0).0, 0, |records|);
  }

  /** A window ending before position 1 selects nothing. */
  lemma {:induction false} NothingBelowOne(records: seq<Record>, lo: int, hi: int, n: nat)
    requires n <= |records| && hi < 1
    ensures WindowPositions(records, lo, hi, n) == []
    decreases n
  {
    if n > 0 {
      NothingBelowOne(records, lo, hi, n - 1);
    }
  }

  /** With both bounds non-zero, the order in which they are given does not matter. */
  lemma SwappedWindow(records: seq<Record>, x: int, y: int, c: Numerics)
    requires x != 0 && y != 0
    ensures Selected(records, (x, y)) == Selected(records, (y, x))
    ensures ExtractFeatures(records, (x, y), c) == ExtractFeatures(records, (y, x), c)
  {
  }

  /** Start bounds of at most 1 all select the same records: positions start at 1. */
  lemma {:induction false} StartBelowOne(records: seq<Record>, lo: int, lo': int, hi: int, n: nat)
    requires n <= |records| && lo <= 1 && lo' <= 1
    ensures WindowPositions(records, lo, hi, n) == WindowPositions(records, lo', hi, n)
    decreases n
  {
    if n > 0 {
      StartBelowOne(records, lo, lo', hi, n - 1);
      assert Contributes(records, lo, hi, n) == Contributes(records, lo', hi, n);
    }
  }

  /** For a non-negative end bound, a start bound of 0 behaves like a start bound of 1. */
  lemma StartZeroIsStartOne(records: seq<Record>, y: int, c: Numerics)
    requires y >= 0
    ensures Selected(records, (0, y)) == Selected(records, (1, y))
    ensures ExtractFeatures(records, (0, y), c) == ExtractFeatures(records, (1, y), c)
  {
    StartBelowOne(records, 0, 1, y, |records|);
  }

  // A worked example.

  /** The read lengths of a file, in file order. */
  function ReadLengths(records: seq<Record>): (ls: seq<int>)
    ensures |ls| == |records|
  {
    seq(|records|, k requires 0 <= k < |records| => |records[k].read|)
  }

  /** A window covering every record selects all records with a quality string. */
  lemma {:induction false} WholeWindow(records: seq<Record>, lo: int, hi: int, n: nat)
    requires n <= |records| && lo <= 1 && |records| <= hi
    requires forall i :: 0 <= i < |records| ==> |records[i].qual| > 0
    ensures var ps := WindowPositions(records, lo, hi, n);
      |ps| == n && forall k :: 0 <= k < n ==> ps[k] == k + 1
    decreases n
  {
    if n > 0 {
      WholeWindow(records, lo, hi, n - 1);
      assert Contributes(records, lo, hi, n);
      var ps := WindowPositions(records, lo, hi, n - 1);
      assert WindowPositions(records, lo, hi, n) == ps + [n];
    }
  }

  /** In the window (1, 3000) all three reads of a three-read file contribute. */
  lemma ThreeRecordsAllSelected(records: seq<Record>)
    requires |records| == 3 && forall i :: 0 <= i < 3 ==> |records[i].qual| > 0
    ensures Selected(records, (1, 3000)) == [1, 2, 3]
    ensures LengthsAt(records, [1, 2, 3]) == ReadLengths(records)
  {
    WholeWindow(records, 1, 3000, 3);
    var ps := WindowPositions(records, 1, 3000, 3);
    assert ps == [ps[0], ps[1], ps[2]];
  }

  lemma ThreeLengthsSummary(lengths: seq<int>)
    requires lengths == [100, 150, 110]
    ensures Mean(lengths) == 120.0 && Min(lengths) == 100 && Max(lengths) == 150
  {
    assert Sum([100, 150, 110]) == 360;
    assert Mean(lengths) * 3.0 == 360.0;
    assert Min([100, 150, 110]) == 100 && Max([100, 150, 110]) == 150;
  }

  lemma ThreeLengthsSorted(lengths: seq<int>, sorted: seq<int>)
    requires lengths == [100, 150, 110] && sorted == [100, 110, 150]
    ensures Sort(lengths) == sorted
  {
    assert Ascending(sorted);
    assert multiset(lengths) == multiset(sorted);
    SortIsAscendingPermutation(lengths, sorted);
  }

  lemma ThreeLengthsMedian(lengths: seq<int>, sorted: seq<int>)
    requires Sort(lengths) == sorted && |sorted| == 3 && sorted[1] == 110
    ensures Median(lengths) == 110.0
  {
  }

  /** The selected lengths of a three-read file in the window (1, 3000). */
  lemma ThreeReadsLengths(records: seq<Record>)
    requires |records| == 3 && forall i :: 0 <= i < 3 ==> |records[i].qual| > 0
    requires ReadLengths(records) == [100, 150, 110]
    ensures LengthsAt(records, Selected(records, (1, 3000))) == [100, 150, 110]
  {
    ThreeRecordsAllSelected(records);
  }

  /**
    A file of three reads of lengths 100, 150 and 110, each with a quality
    string, in the window (1, 3000): all three contribute, the mean length is
    120, the median 110, the extrema 100 and 150.
  */
  lemma ThreeReads(records: seq<Record>, c: Numerics)
    requires |records| == 3 && forall i :: 0 <= i < 3 ==> |records[i].qual| > 0
    requires ReadLengths(records) == [100, 150, 110]
    ensures var r := ExtractFeatures(records, (1, 3000), c);
      && r.Features? && r.count == 3
      && r.vector.avgLength == 120.0 && r.vector.minLength == 100 && r.vector.maxLength == 150
      && r.vector.medianLength == 110.0
  {
    ThreeRecordsAllSelected(records);
    ThreeReadsLengths(records);
    var lengths := LengthsAt(records, Selected(records, (1, 3000)));
    ThreeLengthsSummary(lengths);
    ThreeLengthsSorted(lengths, [100, 110, 150]);
    ThreeLengthsMedian(lengths, [100, 110, 150]);
    FileFeaturesOutcome(records, (1, 3000), c);
    LengthFeatures(records, (1, 3000), c);
  }
}
