/**
 * The time-window file filter of radar_api/filter.py: the interval test
 * `is_file_within_time`, the per-file decision `filter_file` and the list
 * filter `filter_files`.
 */
module Filter {
  import opened Wrappers
  import opened Info

  /** `datetime.timedelta(minutes=15)`: the coverage assumed for a file without `end_time`. */
  const FallbackDuration: int := 900

  /** `datetime.datetime.max` (9999-12-31T23:59:59), in whole seconds since 1970-01-01T00:00:00. */
  const MaxDatetime: Time := 253402300799

  /**
   * The exceptions modelled: the parser's `ValueError` (see `Info.Unparseable`),
   * the `TypeError` raised by adding a duration to, or comparing, a
   * `start_time` whose value is `None`, and the `OverflowError` raised when
   * the fallback end would pass `datetime.max`.
   */
  datatype Error = ValueError | TypeError | OverflowError

  // ---------------------------------------------------------------------
  // is_file_within_time
  // ---------------------------------------------------------------------

  /** Textbook overlap of the file [fileStart, fileEnd) with the query [start, end). */
  predicate Overlaps(start: Time, end: Time, fileStart: Time, fileEnd: Time) {
    fileStart < end && start < fileEnd
  }

  /** A file that starts strictly inside the query and ends exactly at its end. */
  predicate EndAlignedInside(start: Time, end: Time, fileStart: Time, fileEnd: Time) {
    start < fileStart && fileEnd == end
  }

  /**
   * The three-case test of `is_file_within_time`: the file spans the query
   * start, lies inside the query, or spans the query end. For a file and a
   * query that both have positive length it is the textbook overlap test,
   * except that a file starting inside the query and ending exactly at its
   * end is rejected.
   */
  function IsFileWithinTime(start: Time, end: Time, fileStart: Time, fileEnd: Time): (r: bool)
    ensures start < end && fileStart < fileEnd ==>
      (r <==> Overlaps(start, end, fileStart, fileEnd) && !EndAlignedInside(start, end, fileStart, fileEnd))
  {
    var spansStart := fileStart <= start && fileEnd > start;
    var inside := fileStart >= start && fileEnd < end;
    var spansEnd := fileStart < end && fileEnd > end;
    spansStart || inside || spansEnd
  }

  /** Every accepted well-formed file overlaps the query in the textbook sense. */
  lemma AcceptedOverlaps(start: Time, end: Time, fileStart: Time, fileEnd: Time)
    requires start < end && fileStart < fileEnd
    requires IsFileWithinTime(start, end, fileStart, fileEnd)
    ensures Overlaps(start, end, fileStart, fileEnd)
    ensures fileStart < end && fileEnd > start
  {
  }

  /** A file starting exactly at the query start is accepted. */
  lemma StartAtQueryStartAccepted(start: Time, end: Time, fileStart: Time, fileEnd: Time)
    requires start < end && fileStart < fileEnd
    requires fileStart == start
    ensures IsFileWithinTime(start, end, fileStart, fileEnd)
  {
  }

  /** A file ending exactly at the query start is rejected. */
  lemma EndAtQueryStartRejected(start: Time, end: Time, fileStart: Time, fileEnd: Time)
    requires start < end && fileStart < fileEnd
    requires fileEnd == start
    ensures !IsFileWithinTime(start, end, fileStart, fileEnd)
  {
  }

  /** A file starting exactly at the query end is rejected. */
  lemma StartAtQueryEndRejected(start: Time, end: Time, fileStart: Time, fileEnd: Time)
    requires start < end && fileStart < fileEnd
    requires fileStart == end
    ensures !IsFileWithinTime(start, end, fileStart, fileEnd)
  {
  }

  /**
   * A file lying inside the query and ending exactly at the query end is
   * rejected: neither the strict `<` of the inside case nor the strict `>`
   * of the spans-end case admits it.
   */
  lemma EndAlignedInsideRejected(start: Time, end: Time, fileStart: Time, fileEnd: Time)
    requires start < fileStart && fileEnd == end
    ensures !IsFileWithinTime(start, end, fileStart, fileEnd)
  {
  }

  /**
   * A zero-length file at the query start is accepted by the inside case,
   * although it overlaps no instant of the query.
   */
  lemma ZeroLengthAtStartAccepted(start: Time, end: Time, fileStart: Time, fileEnd: Time)
    requires start < end
    requires fileStart == start && fileEnd == start
    ensures IsFileWithinTime(start, end, fileStart, fileEnd)
    ensures !Overlaps(start, end, fileStart, fileEnd)
  {
  }

  /** A file covering the whole query is accepted. */
  lemma CoveringFileAccepted(start: Time, end: Time, fileStart: Time, fileEnd: Time)
    requires start < end
    requires fileStart <= start && end <= fileEnd
    ensures IsFileWithinTime(start, end, fileStart, fileEnd)
  {
  }

  /**
   * Moving the query start earlier can drop a file: [5, 20] is accepted
   * against [10, 20] (it spans the start) but rejected against [0, 20]
   * (it now ends exactly at the query end).
   */
  lemma WideningStartCanReject()
    ensures IsFileWithinTime(10, 20, 5, 20)
    ensures !IsFileWithinTime(0, 20, 5, 20)
  {
  }

  // ---------------------------------------------------------------------
  // filter_file
  // ---------------------------------------------------------------------

  /** The coverage end of a file: its `end_time`, or its start plus the fallback when the key is absent or `None`. */
  function FileEnd(fileStart: Time, endTime: Field): Time {
    if endTime.Present? then endTime.time else fileStart + FallbackDuration
  }

  /**
   * `filter_file`: with both query bounds given, parses the path and keeps it
   * when its coverage passes `IsFileWithinTime`; `Ok(None)` means the path
   * is dropped. With either bound missing the path is kept as it is.
   */
  function FilterFile(parse: Parser, fpath: string, network: string, start: Option<Time>, end: Option<Time>)
    : (r: Result<Option<string>, Error>)
    ensures r.Ok? && r.value.Some? ==> r.value.value == fpath
    ensures start.None? || end.None? ==> r == Ok(Some(fpath))
    ensures r == Err(ValueError) <==> start.Some? && end.Some? && parse(fpath, network).Unparseable?
    ensures r == Err(TypeError) <==>
      start.Some? && end.Some? && parse(fpath, network).Parsed? && parse(fpath, network).info.startTime.Null?
    ensures r == Err(OverflowError) <==>
      && start.Some? && end.Some? && parse(fpath, network).Parsed?
      && parse(fpath, network).info.startTime.Present?
      && !parse(fpath, network).info.endTime.Present?
      && parse(fpath, network).info.startTime.time + FallbackDuration > MaxDatetime
  {
    if start.Some? && end.Some? then
      match parse(fpath, network)
      case Unparseable => Err(ValueError)
      case Parsed(info) =>
        match info.startTime
        case Absent => Ok(None)
        case Null => Err(TypeError)
        case Present(fileStart) =>
          if !info.endTime.Present? && fileStart + FallbackDuration > MaxDatetime then Err(OverflowError)
          else if IsFileWithinTime(start.value, end.value, fileStart, FileEnd(fileStart, info.endTime))
          then Ok(Some(fpath))
          else Ok(None)
    else
      Ok(Some(fpath))
  }

  /** `filter_file` keeps the path. */
  predicate Kept(parse: Parser, fpath: string, network: string, start: Option<Time>, end: Option<Time>) {
    FilterFile(parse, fpath, network, start, end) == Ok(Some(fpath))
  }

  /** Without both bounds the parser is never consulted: any two parsers give the same answer. */
  lemma FilterFileIgnoresParser(parse1: Parser, parse2: Parser, fpath: string, network: string,
                                start: Option<Time>, end: Option<Time>)
    requires start.None? || end.None?
    ensures FilterFile(parse1, fpath, network, start, end) == FilterFile(parse2, fpath, network, start, end)
  {
  }

  /**
   * With both bounds given, the path is kept exactly when it parses, has a
   * `start_time`, its fallback end (if needed) does not pass `datetime.max`,
   * and its coverage is accepted.
   */
  lemma KeptIff(parse: Parser, fpath: string, network: string, start: Time, end: Time)
    ensures Kept(parse, fpath, network, Some(start), Some(end)) <==>
      && parse(fpath, network).Parsed?
      && parse(fpath, network).info.startTime.Present?
      && var info := parse(fpath, network).info;
         && (info.endTime.Present? || info.startTime.time + FallbackDuration <= MaxDatetime)
         && IsFileWithinTime(start, end, info.startTime.time, FileEnd(info.startTime.time, info.endTime))
  {
  }

  /** A parsed dictionary without a `start_time` key makes `filter_file` drop the path without error. */
  lemma DroppedWithoutStartTime(parse: Parser, fpath: string, network: string, start: Time, end: Time)
    requires parse(fpath, network).Parsed? && parse(fpath, network).info.startTime.Absent?
    ensures FilterFile(parse, fpath, network, Some(start), Some(end)) == Ok(None)
  {
  }

  /**
   * A file without an end time covers [fileStart, fileStart + 900): it is kept
   * exactly when that span overlaps the query, unless it starts inside the
   * query and ends exactly at the query end, or its end passes `datetime.max`.
   */
  lemma FallbackCoverageKept(parse: Parser, fpath: string, network: string, start: Time, end: Time, fileStart: Time)
    requires start < end
    requires parse(fpath, network).Parsed?
    requires parse(fpath, network).info.startTime == Present(fileStart)
    requires !parse(fpath, network).info.endTime.Present?
    ensures Kept(parse, fpath, network, Some(start), Some(end)) <==>
      && fileStart + FallbackDuration <= MaxDatetime
      && fileStart < end
      && start < fileStart + FallbackDuration
      && !(start < fileStart && fileStart + FallbackDuration == end)
  {
  }

  /**
   * A file with an end time after its start time is kept exactly when its
   * coverage overlaps the query and is not end-aligned inside it.
   */
  lemma ExplicitCoverageKept(parse: Parser, fpath: string, network: string, start: Time, end: Time,
                             fileStart: Time, fileEnd: Time)
    requires start < end && fileStart < fileEnd
    requires parse(fpath, network) == Parsed(ParsedInfo(Present(fileStart), Present(fileEnd)))
    ensures Kept(parse, fpath, network, Some(start), Some(end)) <==>
      Overlaps(start, end, fileStart, fileEnd) && !EndAlignedInside(start, end, fileStart, fileEnd)
  {
  }

  // ---------------------------------------------------------------------
  // filter_files
  // ---------------------------------------------------------------------

  /** The `fpaths` argument of `filter_files`: one path, or a list of paths. */
  datatype Paths = Single(path: string) | Many(paths: seq<string>)

  /** A single path is turned into a one-element list. */
  function AsList(fpaths: Paths): seq<string> {
    match fpaths
    case Single(p) => [p]
    case Many(ps) => ps
  }

  /** `r` is `xs` with some elements removed, the rest in their original order. */
  predicate IsSubsequence<T(==)>(r: seq<T>, xs: seq<T>)
    decreases |xs|
  {
    || r == []
    || (&& xs != []
        && ((r[0] == xs[0] && IsSubsequence(r[1..], xs[1..])) || IsSubsequence(r, xs[1..])))
  }

  /**
   * `IsSubsequence` means what its name says: a subsequence is no longer
   * than the sequence and takes its elements from it.
   */
  lemma {:induction false} SubsequenceBounds<T>(r: seq<T>, xs: seq<T>)
    requires IsSubsequence(r, xs)
    ensures |r| <= |xs|
    ensures forall x :: x in r ==> x in xs
    decreases |xs|
  {
    if r != [] {
      if r[0] == xs[0] && IsSubsequence(r[1..], xs[1..]) {
        SubsequenceBounds(r[1..], xs[1..]);
        assert forall x :: x in r ==> x == r[0] || x in r[1..];
      } else {
        SubsequenceBounds(r, xs[1..]);
      }
    }
  }

  /**
   * The two comprehensions of `filter_files` over a list: `filter_file` is
   * applied to every path in order, the first exception escapes, and the
   * dropped paths are removed.
   */
  function FilterList(parse: Parser, xs: seq<string>, network: string, start: Option<Time>, end: Option<Time>)
    : (r: Result<seq<string>, Error>)
    ensures r.Ok? ==> |r.value| <= |xs|
    ensures r.Ok? ==> forall x :: x in r.value ==> x in xs
    decreases |xs|
  {
    if xs == [] then
      Ok([])
    else
      match FilterFile(parse, xs[0], network, start, end)
      case Err(e) => Err(e)
      case Ok(kept) =>
        match FilterList(parse, xs[1..], network, start, end)
        case Err(e) => Err(e)
        case Ok(rest) => Ok((if kept.Some? then [kept.value] else []) + rest)
  }

  /**
   * `filter_files`: a single path is filtered as a one-element list. On
   * success the result is an order-preserving subsequence of the paths in
   * which each kept path occurs as often as in the input and each dropped
   * path not at all; with either bound missing it is the input itself.
   */
  function FilterFiles(parse: Parser, fpaths: Paths, network: string, start: Option<Time>, end: Option<Time>)
    : (r: Result<seq<string>, Error>)
    ensures r.Ok? ==> IsSubsequence(r.value, AsList(fpaths))
    ensures r.Ok? ==> forall x ::
              multiset(r.value)[x] == (if Kept(parse, x, network, start, end) then multiset(AsList(fpaths))[x] else 0)
    ensures start.None? || end.None? ==> r == Ok(AsList(fpaths))
  {
    var xs := AsList(fpaths);
    if start.None? || end.None? then
      FilterListUnbounded(parse, xs, network, start, end);
      FilterListSubsequence(parse, xs, network, start, end);
      FilterListCounts(parse, xs, network, start, end);
      FilterList(parse, xs, network, start, end)
    else if FilterList(parse, xs, network, start, end).Ok? then
      FilterListSubsequence(parse, xs, network, start, end);
      FilterListCounts(parse, xs, network, start, end);
      FilterList(parse, xs, network, start, end)
    else
      FilterList(parse, xs, network, start, end)
  }

  /** A single path gives the one-element list when kept, the empty list when dropped, or the same error. */
  lemma SinglePathAsList(parse: Parser, fpath: string, network: string, start: Option<Time>, end: Option<Time>)
    ensures FilterFiles(parse, Single(fpath), network, start, end) == FilterFiles(parse, Many([fpath]), network, start, end)
    ensures FilterFiles(parse, Single(fpath), network, start, end) ==
      match FilterFile(parse, fpath, network, start, end)
      case Ok(Some(_)) => Ok([fpath])
      case Ok(None) => Ok([])
      case Err(e) => Err(e)
  {
    assert [fpath][1..] == [];
    assert FilterList(parse, [], network, start, end) == Ok([]);
    match FilterFile(parse, fpath, network, start, end)
    case Ok(Some(p)) =>
      assert [p] + [] == [fpath];
    case Ok(None) =>
    case Err(e) =>
  }

  /** The result is an order-preserving subsequence of the input. */
  lemma {:induction false} FilterListSubsequence(parse: Parser, xs: seq<string>, network: string,
                                                 start: Option<Time>, end: Option<Time>)
    requires FilterList(parse, xs, network, start, end).Ok?
    ensures IsSubsequence(FilterList(parse, xs, network, start, end).value, xs)
    decreases |xs|
  {
    if xs != [] {
      FilterListSubsequence(parse, xs[1..], network, start, end);
      var rest := FilterList(parse, xs[1..], network, start, end).value;
      var r := FilterList(parse, xs, network, start, end).value;
      if Kept(parse, xs[0], network, start, end) {
        assert r == [xs[0]] + rest;
        assert r[1..] == rest;
      } else {
        assert r == rest;
      }
    }
  }

  /**
   * Every path occurs in the result as often as in the input when
   * `filter_file` keeps it, and not at all otherwise: duplicates are kept.
   */
  lemma {:induction false} FilterListCounts(parse: Parser, xs: seq<string>, network: string,
                                            start: Option<Time>, end: Option<Time>)
    requires FilterList(parse, xs, network, start, end).Ok?
    ensures forall x ::
              multiset(FilterList(parse, xs, network, start, end).value)[x] ==
              (if Kept(parse, x, network, start, end) then multiset(xs)[x] else 0)
    decreases |xs|
  {
    if xs != [] {
      FilterListCounts(parse, xs[1..], network, start, end);
      var rest := FilterList(parse, xs[1..], network, start, end).value;
      var r := FilterList(parse, xs, network, start, end).value;
      assert xs == [xs[0]] + xs[1..];
      if Kept(parse, xs[0], network, start, end) {
        assert r == [xs[0]] + rest;
      } else {
        assert r == rest;
      }
    }
  }

  /** With either bound missing, `filter_files` returns its input unchanged. */
  lemma {:induction false} FilterListUnbounded(parse: Parser, xs: seq<string>, network: string,
                                               start: Option<Time>, end: Option<Time>)
    requires start.None? || end.None?
    ensures FilterList(parse, xs, network, start, end) == Ok(xs)
    decreases |xs|
  {
    if xs != [] {
      FilterListUnbounded(parse, xs[1..], network, start, end);
      assert xs == [xs[0]] + xs[1..];
    }
  }

  /**
   * `filter_files` raises exactly when `filter_file` raises on some path, and
   * then with the exception of the first such path.
   */
  lemma {:induction false} FilterListError(parse: Parser, xs: seq<string>, network: string,
                                           start: Option<Time>, end: Option<Time>)
    ensures FilterList(parse, xs, network, start, end).Err? <==>
      exists i :: 0 <= i < |xs| && FilterFile(parse, xs[i], network, start, end).Err?
    ensures FilterList(parse, xs, network, start, end).Err? ==>
      exists i :: && 0 <= i < |xs|
                  && FilterFile(parse, xs[i], network, start, end) == Err(FilterList(parse, xs, network, start, end).error)
                  && forall j :: 0 <= j < i ==> FilterFile(parse, xs[j], network, start, end).Ok?
    decreases |xs|
  {
    if xs != [] {
      FilterListError(parse, xs[1..], network, start, end);
      if FilterFile(parse, xs[0], network, start, end).Ok? {
        forall i | 0 < i < |xs|
          ensures FilterFile(parse, xs[i], network, start, end) == FilterFile(parse, xs[1..][i - 1], network, start, end)
        {
        }
        if FilterList(parse, xs, network, start, end).Err? {
          var k :| && 0 <= k < |xs[1..]|
                   && FilterFile(parse, xs[1..][k], network, start, end) == Err(FilterList(parse, xs, network, start, end).error)
                   && forall j :: 0 <= j < k ==> FilterFile(parse, xs[1..][j], network, start, end).Ok?;
          assert forall j :: 0 <= j < k + 1 ==> FilterFile(parse, xs[j], network, start, end).Ok? by {
            forall j | 0 <= j < k + 1 ensures FilterFile(parse, xs[j], network, start, end).Ok? {
              if j > 0 { assert xs[j] == xs[1..][j - 1]; }
            }
          }
          assert FilterFile(parse, xs[k + 1], network, start, end) == Err(FilterList(parse, xs, network, start, end).error);
        }
      } else {
        assert FilterFile(parse, xs[0], network, start, end) == Err(FilterList(parse, xs, network, start, end).error);
      }
    }
  }
}
