# Time-window file filter of radar_api

This project models the time filter that radar_api applies to candidate
radar archive files (radar_api/filter.py). Three operations are modelled:

- `is_file_within_time` decides whether a file's time coverage meets a query
  window. It uses three hand-written cases: the file spans the query start,
  lies inside the query, or spans the query end.
- `filter_file` parses one filepath with the network's filename parser. It
  computes the file's coverage, substituting start + 15 minutes when the end
  time is unknown, and keeps or drops the path.
- `filter_files` accepts one path or a list of paths. It applies
  `filter_file` to each path in order and removes the dropped ones.

Modules:

- `Wrappers` (wrappers.dfy) holds `Option`, used for Python's `None`, and
  `Result`, used for a call that raises.
- `Info` (info.dfy) is the interface of the filename parser
  `get_info_from_filepath`. Its source (radar_api/info.py) is not part of
  this model, so the parser is a function-typed PARAMETER (`Parser`). A
  dictionary key is `Absent`, `Null` (present with value `None`) or
  `Present(t)`. `Unparseable` stands for any `ValueError` the parser
  raises: a name that matches no pattern, or an unknown network if the
  parser checks it.
- `Filter` (filter.dfy) models the three operations and proves their
  properties.
- `FilterTests` (filter_tests.dfy) restates the table of
  radar_api/tests/test_filter.py and one worked example of `filter_files`.
  The test labelled "Ends at start" (radar_api/tests/test_filter.py:60)
  queries 00:00:00 to 00:01:01, which ends before the file starts; it is
  stated as written.

Times are integers counting seconds since 1970-01-01T00:00:00 (UTC,
timezone-naive). `MaxDatetime` is `datetime.max` in those units: past it,
the fallback end `start + 15 minutes` raises `OverflowError`. The tests compare ISO-8601 strings of
one uniform format, which order the same way as the instants they name.
The fifteen-minute fallback is `FallbackDuration == 900`.

Main results:

- For a file and a query that both have positive length, the three-case test
  is the textbook overlap of [fileStart, fileEnd) with [start, end), with one
  exception: a file that starts inside the query and ends exactly at its end
  is rejected. The model keeps this behaviour of the code. A consequence is
  that moving the query start earlier can drop a file that was accepted
  before (`WideningStartCanReject`).
- On success, `filter_files` returns an order-preserving subsequence of its
  input. Each path occurs in the result exactly as often as in the input when
  `filter_file` keeps it, and not at all otherwise, so duplicates survive.
- `filter_files` raises exactly when `filter_file` raises on some path. The
  exception raised is the one from the first such path.

Filtering is skipped when either bound is `None` (radar_api/filter.py:36),
so in `FilterListUnbounded` and `FilterFiles` one missing bound is enough
for the input to come back unchanged.

## Model

| member | source | states |
|---|---|---|
| `Filter.IsFileWithinTime` | radar_api/filter.py:12-30 | for a query and a file of positive length: accepted iff the file overlaps [start, end) and does not start inside the query while ending exactly at its end |
| `Filter.AcceptedOverlaps` | radar_api/filter.py:18-30 | every accepted well-formed file overlaps the query: it starts before the query end and ends after the query start |
| `Filter.StartAtQueryStartAccepted` | radar_api/filter.py:18 | a file starting exactly at the query start is accepted |
| `Filter.EndAtQueryStartRejected` | radar_api/filter.py:18-28 | a file ending exactly at the query start is rejected |
| `Filter.StartAtQueryEndRejected` | radar_api/filter.py:18-28 | a file starting exactly at the query end is rejected |
| `Filter.EndAlignedInsideRejected` | radar_api/filter.py:23-28 | a file with start < fileStart and fileEnd == end is rejected, because of the strict comparisons in the inside and spans-end cases |
| `Filter.ZeroLengthAtStartAccepted` | radar_api/filter.py:23 | a zero-length file at the query start is accepted by the inside case although it overlaps nothing |
| `Filter.CoveringFileAccepted` | radar_api/filter.py:18 | a file covering the whole query is accepted |
| `Filter.WideningStartCanReject` | radar_api/filter.py:18-30 | the file [5, 20] is accepted for the query [10, 20] but rejected for the wider query [0, 20] |
| `Filter.FilterFile` | radar_api/filter.py:33-50 | returns only the path itself or nothing; keeps the path when either bound is missing; raises ValueError exactly when both bounds are given and the name does not parse; raises TypeError exactly when both bounds are given and start_time is None; raises OverflowError exactly when both bounds are given, there is no end_time, and start + 900 s passes datetime.max |
| `Filter.FilterFileIgnoresParser` | radar_api/filter.py:36-50 | with either bound missing, the result does not depend on the parser |
| `Filter.KeptIff` | radar_api/filter.py:38-50 | with both bounds, the path is kept iff it parses, has a start_time, its fallback end (if used) does not pass datetime.max, and its coverage (end_time, else start + 900 s) passes the interval test |
| `Filter.DroppedWithoutStartTime` | radar_api/filter.py:39-40 | a parsed dictionary with no start_time key drops the path without error |
| `Filter.FallbackCoverageKept` | radar_api/filter.py:43-48 | a file without end time is kept iff fs + 900 does not pass datetime.max, [fs, fs + 900) overlaps the query, and the file does not start inside the query while ending exactly at its end |
| `Filter.ExplicitCoverageKept` | radar_api/filter.py:45-48 | a file with end time fe > fs is kept iff [fs, fe) overlaps the query and is not end-aligned inside it |
| `Filter.SinglePathAsList` | radar_api/filter.py:61-62 | a single path is filtered as the one-element list: it yields [path], [] or the same exception |
| `Filter.FilterFiles` | radar_api/filter.py:53-74 | on success the result is an order-preserving subsequence of the input paths, each kept path occurring as often as in the input and each dropped path not at all; with either bound None it is the input (the single-path case is `SinglePathAsList`, errors are `FilterListError`) |
| `Filter.FilterList` | radar_api/filter.py:63-73 | on success the result is no longer than the input and contains only input paths |
| `Filter.FilterListSubsequence` | radar_api/filter.py:63-74 | on success the result is an order-preserving subsequence of the input |
| `Filter.FilterListCounts` | radar_api/filter.py:63-74 | each path occurs in the result as often as in the input if filter_file keeps it and zero times otherwise, so duplicates are not removed |
| `Filter.FilterListUnbounded` | radar_api/filter.py:53-74 | with either bound None the result equals the input |
| `Filter.FilterListError` | radar_api/filter.py:63-72 | raises iff filter_file raises on some path, and then with the exception of the first such path, all earlier paths having succeeded |
| `FilterTests.AcceptedQueries` | radar_api/tests/test_filter.py:37-56 | with the file at 01:00 to 04:00, the queries crossing its start, inside it and crossing its end accept it |
| `FilterTests.RejectedQueries` | radar_api/tests/test_filter.py:58-76 | the five rejected queries of the table reject the same file |
| `FilterTests.SampleFilter` | radar_api/filter.py:53-74 | a worked example: duplicates are kept, a file without end time is kept or dropped by its 15-minute coverage, an unparseable name raises ValueError, a start 10 minutes before datetime.max without end time raises OverflowError, and without a start bound everything is kept |

## Left out

- `get_info_from_filepath` (radar_api/info.py) is not part of this model. It is an arbitrary `Parser` supplied by the caller. Filename patterns, regular expressions and datetime parsing are not modelled.
- The parser's `ignore_errors` flag is not modelled, since `filter_file` never passes it. So an unparseable name always raises `ValueError`. The dictionary without a `start_time` key (`Absent`) can only come from the parser's own contract.
- Only the `start_time` and `end_time` keys of the parsed dictionary are represented. `radar_acronym`, `volume_identifier`, `version` and `extension` are not read by the filter.
- `TypeError` for a non-string filepath or network, and a list holding non-strings, cannot occur: paths and the network are typed `string`.
- `datetime` values, time zones and sub-second precision are not modelled. Times are integer seconds; the only range limit modelled is the `OverflowError` of the fallback end past `datetime.max` (radar_api/filter.py:44). Times the parser could never produce (before `datetime.min`, after `datetime.max`) are not excluded.
- The ISO strings passed by the tests compare as strings in Python. The model compares the instants they name.
- Configuration, the network/filesystem/download layers, the readers, the xarray conversion, timing utilities and the tutorial are outside this core. So are the directory planner, daily time blocks, input checks and the search orchestrator's de-duplication and sorting. Their sources are not part of this model.
