/**
 * The interface of the filename parser `get_info_from_filepath`
 * (radar_api/info.py), which is not part of this model. Only the two keys
 * that the time filter reads are represented; the parser itself is an
 * arbitrary function supplied by the caller.
 */
module Info {

  /** A point in time, in whole seconds since 1970-01-01T00:00:00 (UTC, timezone-naive). */
  type Time = int

  /**
   * The state of one key of the parsed-info dictionary: the key is not
   * there, it is there with value `None`, or it holds a time.
   */
  datatype Field = Absent | Null | Present(time: Time)

  /** The `start_time` and `end_time` entries of the parsed-info dictionary. */
  datatype ParsedInfo = ParsedInfo(startTime: Field, endTime: Field)

  /**
   * What the parser does with one filepath when it is called without
   * `ignore_errors`: it returns a dictionary, or it raises `ValueError`.
   * Since the parser is an arbitrary function of the path and the network,
   * `Unparseable` stands for every `ValueError` it raises: a filename that
   * matches none of the network's patterns, and also an unknown network if
   * the parser checks it.
   */
  datatype ParseOutcome = Parsed(info: ParsedInfo) | Unparseable

  /** `get_info_from_filepath(fpath, network=network)`, as an uninterpreted function. */
  type Parser = (string, string) -> ParseOutcome
}
