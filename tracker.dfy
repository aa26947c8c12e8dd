/**
 * The download log (`DOWNLOAD_TRACKER`, `add_download_to_tracker`): for each
 * input line, the titles downloaded for it, in the order they finished.
 */
module Tracker {

  type Log = map<int, seq<string>>

  /** `DOWNLOAD_TRACKER.get(line_num, [])`. */
  function Downloaded(log: Log, line: int): seq<string> {
    if line in log then log[line] else []
  }

  /** The log after `add_download_to_tracker(line, title)`: the title appended to its line's list. */
  function Record(log: Log, line: int, title: string): (log': Log)
    ensures Downloaded(log', line) == Downloaded(log, line) + [title]
    ensures forall other :: other != line ==> Downloaded(log', other) == Downloaded(log, other)
  {
    log[line := Downloaded(log, line) + [title]]
  }

  /** The log behind its lock. */
  class DownloadTracker {
    var log: Log

    /** The empty dictionary the program starts with. */
    constructor ()
      ensures log == map[]
    {
      log := map[];
    }

    /** `add_download_to_tracker`: one atomic append under the tracker's lock. */
    method Add(line: int, title: string)
      modifies this
      ensures log == Record(old(log), line, title)
    {
      if line !in log {
        log := log[line := []];
      }
      log := log[line := log[line] + [title]];
    }
  }
}
