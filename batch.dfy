/**
 * The body of `main` between reading the input file and printing the
 * summary table: parse the entries (stopping with an error when there are
 * none), take the titles already on disk unless `--force` is given, run
 * every entry's job in the pool against a fresh registry and log, and build
 * one summary row per entry.
 */
module Batch {
  import opened Text
  import opened Entries
  import opened Claims
  import opened Tracker
  import opened Worker
  import opened Scheduler
  import opened Summary

  /** How `main` ends: the "no valid entries" exit, or the summary rows. */
  datatype BatchResult = NoEntries | Finished(rows: seq<Row>)

  /** `existing_titles`: nothing under `--force`, otherwise what the scan of the output directory found. */
  function ExistingTitles(force: bool, scanned: set<string>): (existing: set<string>)
    ensures existing <= scanned
    ensures force ==> existing == {}
    ensures !force ==> existing == scanned
  {
    if force then {} else scanned
  }

  /** The result of a batch: the entries of `text` run in the pool's `order` from an empty registry and log. */
  function BatchOutcome(text: string, force: bool, scanned: set<string>, top: int, resolve: string -> Resolved,
                        order: seq<nat>, outcomes: seq<seq<bool>>): BatchResult
    requires forall k :: 0 <= k < |order| ==> order[k] < |Classified(SplitLines(text))|
  {
    var entries := Classified(SplitLines(text));
    if entries == [] then NoEntries
    else
      var r := Run(InOrder(entries, order), top, resolve, ExistingTitles(force, scanned), outcomes, map[], map[]);
      Finished(Rows(entries, r.log))
  }

  /**
   * `main` without the console: the entries are parsed from the input
   * text, and the pool runs each of them once, in the order `order`, with
   * the resolver and the downloader's outcomes as given.
   */
  method RunBatch(text: string, force: bool, scanned: set<string>, top: int, resolve: string -> Resolved,
                  order: seq<nat>, outcomes: seq<seq<bool>>) returns (result: BatchResult)
    requires IsOrder(order, |Classified(SplitLines(text))|)
    ensures result == BatchOutcome(text, force, scanned, top, resolve, order, outcomes)
  {
    var entries := ParseInput(text);
    if entries == [] {
      return NoEntries;
    }
    var existing := if force then {} else scanned;
    var reg := new ClaimRegistry();
    var tracker := new DownloadTracker();
    var jobs := InOrder(entries, order);
    RunPool(jobs, top, resolve, existing, outcomes, reg, tracker);
    result := Finished(Rows(entries, tracker.log));
  }

  /**
   * Whatever order the pool runs the parsed entries in, a specific song's
   * line ends the run with at most one title logged.
   */
  lemma PoolSpecificAtMostOne(lines: seq<string>, order: seq<nat>, top: int, resolve: string -> Resolved,
                              existing: set<string>, outcomes: seq<seq<bool>>, k: nat)
    requires forall j :: 0 <= j < |order| ==> order[j] < |Classified(lines)|
    requires forall i, j :: 0 <= i < j < |order| ==> order[i] != order[j]
    requires k < |Classified(lines)| && Classified(lines)[k].specific
    ensures |Downloaded(Run(InOrder(Classified(lines), order), top, resolve, existing, outcomes, map[], map[]).log,
                        Classified(lines)[k].lineNum)| <= 1
  {
    var entries := Classified(lines);
    var jobs := InOrder(entries, order);
    PoolOrderDistinct(lines, order);
    RunSpecificAtMostOne(jobs, top, resolve, existing, outcomes);
    var line := entries[k].lineNum;
    if !LineUnused(jobs, 0, line) {
      // the job carrying the line is entry `k` itself, as parsed lines are numbered apart
      var p :| 0 <= p < |jobs| && jobs[p].lineNum == line;
      if order[p] < k {
        ClassifiedIncreasing(lines, order[p], k);
      } else if order[p] > k {
        ClassifiedIncreasing(lines, k, order[p]);
      }
      assert jobs[p] == entries[k];
    }
  }

  /**
   * In the summary of any batch, whatever order the pool ran the entries
   * in and whichever downloads failed, a specific song's row shows no
   * title or exactly one.
   */
  lemma BatchSpecificRows(text: string, force: bool, scanned: set<string>, top: int, resolve: string -> Resolved,
                          order: seq<nat>, outcomes: seq<seq<bool>>, k: nat)
    requires IsOrder(order, |Classified(SplitLines(text))|)
    requires k < |Classified(SplitLines(text))| && Classified(SplitLines(text))[k].specific
    ensures var result := BatchOutcome(text, force, scanned, top, resolve, order, outcomes);
      && result.Finished?
      && result.rows[k].kind == "Song"
      && (result.rows[k].songs == "0 (" + NoneShown + ")"
          || exists t :: result.rows[k].songs == "1 (" + Quoted(t) + ")")
  {
    var lines := SplitLines(text);
    var entries := Classified(lines);
    var existing := ExistingTitles(force, scanned);
    var r := Run(InOrder(entries, order), top, resolve, existing, outcomes, map[], map[]);
    PoolSpecificAtMostOne(lines, order, top, resolve, existing, outcomes, k);
    var d := Downloaded(r.log, entries[k].lineNum);
    var rows := Rows(entries, r.log);
    ParsedRows(lines, r.log);
    assert rows[k].songs == SongsCell(d);
    SongsCellSingle(d);
    if d != [] {
      assert rows[k].songs == "1 (" + Quoted(d[0]) + ")";
    }
  }

  /**
   * Running a batch again, without `--force`, once everything the
   * resolver offers is on disk: every row reports no download.
   */
  lemma BatchRerun(text: string, scanned: set<string>, top: int, resolve: string -> Resolved,
                   order: seq<nat>, outcomes: seq<seq<bool>>, k: nat)
    requires forall j :: 0 <= j < |order| ==> order[j] < |Classified(SplitLines(text))|
    requires forall j :: 0 <= j < |Classified(SplitLines(text))| ==> AllOnDisk(Classified(SplitLines(text))[j], top, resolve, scanned)
    requires k < |Classified(SplitLines(text))|
    ensures var result := BatchOutcome(text, false, scanned, top, resolve, order, outcomes);
      result.Finished? && result.rows[k].songs == "0 (" + NoneShown + ")"
  {
    var entries := Classified(SplitLines(text));
    var jobs := InOrder(entries, order);
    forall j | 0 <= j < |jobs| ensures AllOnDisk(jobs[j], top, resolve, scanned) {
      assert jobs[j] == entries[order[j]];
    }
    RunIdempotent(jobs, top, resolve, scanned, outcomes);
    ParsedRows(SplitLines(text), map[]);
    assert Downloaded(map[], entries[k].lineNum) == [];
    SongsCellSingle([]);
  }
}
