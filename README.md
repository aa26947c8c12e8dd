# Music downloader: the dedup-and-ranking engine, in Dafny

This project models the core of `music_downloader.py` (`main.py`), a batch
tool that reads a list of music requests (video or playlist URLs, specific
songs written "Artist - Title", or bare artist names), resolves each through
YouTube search, and downloads the chosen tracks while making sure that no
input line and no artist yields duplicate titles, even with several worker
threads sharing one dictionary of claimed titles.

What is modelled, module by module:

- `Text` (text.dfy): the string primitives the program leans on: Python's
  whitespace set, lower-casing (ASCII and Latin-1), `strip`, `splitlines`,
  decimal rendering of integers and `", ".join`.
- `Entries` (entries.dfy): `parse_input`. Lines are numbered from 1,
  blank and `#` lines are skipped but still counted, and a line is a
  specific song when a `-` or `–` has whitespace on both sides.
- `Query` (query.dfy): `is_url` and `build_query`. URLs and explicit
  `ytsearchN:` queries pass through. A specific song asks for
  `ytsearch1:`, and an artist asks for `ytsearch{top}:`.
- `ArtistKey` (artist.dfy): `extract_artist_name`. Both regular
  expressions are modelled as scans. Lemmas show that each scan finds the
  group a lazy `(.*?)` settles on.
- `Ranking` (ranking.dfy): `is_low_priority_version` and
  `filter_and_sort_entries`. The filter is followed by Python's stable
  `sorted` on the key `("webm" in ext, duration > 600, -(view_count or 0))`.
- `Claims` (claims.dfy): the `artist_tracker` dictionary as a class whose
  `TryClaim` method is the `with lock:` check-and-insert block. A tagged
  `Scope` stands for the dictionary's mixed `int`/`str` keys. `Replay`
  serves any interleaving of claim requests one at a time.
- `Tracker` (tracker.dfy): `DOWNLOAD_TRACKER` and `add_download_to_tracker`.
- `Worker` (worker.dfy): `download_single`, both the playlist branch and
  the search branch. The functions (`Process`, `PlaylistEffect`,
  `SearchEffect`) say what a job does to the registry and the log, and the
  methods do it step by step against the shared objects.
- `Scheduler` (scheduler.dfy): the thread pool. It runs whole jobs one
  after another, in whatever order the pool picks.
- `Summary` (summary.dfy): the "Download summary by entry" rows, sorted by
  line number, and their cells.
- `Batch` (batch.dfy): `main` between reading the input and printing
  the table.

The resolver (`extract_info`) is a function from the query string to what it
returns: an error, a falsy result, a playlist, a list or a single video. The
downloader (`process_ie_result`) is an oracle: a sequence of booleans per job,
one per position of the job's download plan. A position the oracle does not
cover counts as a failure. The titles already on disk are an input set.

The model follows the code where its behaviour may surprise a reader:

- The playlist branch claims each item before ranking (main.py:272-296). A
  title the ranker then drops stays claimed and is never downloaded. For a
  specific song, the first eligible playlist item wins whatever its rank.
- A missing or `None` view count ranks as 0 views, not below every present
  count.
- The claim scope of an artist entry is the artist key of each candidate's
  title, not of the input line.
- A specific song stops after its first successful download. Later
  candidates of its line would be refused anyway, because the line scope
  already holds a title, and the plan is cut to one candidate.
- A URL line containing " - " is classified as a specific song. Its query
  passes through unchanged, but its claims use the line scope.
- The summary sorts entries by line number (`Summary.SortByLine`, a stable
  insertion sort). The entries `parse_input` yields are already strictly
  increasing, so the sort leaves them as they are (`Summary.ParsedRows`).

## Model

| member | source | states |
|---|---|---|
| `Entries.ParseInput` | main.py:93-109 | the loop's entries are `Classified(SplitLines(text))`: one entry per stripped line that is neither blank nor a comment |
| `Entries.ClassifiedSound` | main.py:96-108 | each entry carries its 1-based physical line number, the stripped line, which is not blank and does not start with `#`, and the song/artist classification of that text |
| `Entries.ClassifiedIncreasing` | main.py:96-99 | line numbers strictly increase along the entries, counting skipped lines too |
| `Entries.ClassifiedComplete` | main.py:98-108 | every line that is neither blank nor a comment yields an entry with its line number |
| `Entries.IsSpecificSongIff` | main.py:106 | a line is a specific song iff some `-` or `–` in it has whitespace immediately on both sides |
| `Entries.ClassifiedTextUnbroken` | main.py:98-106 | entry texts hold no line break, so the dash scan matches the anchored regular expression |
| `Text.SplitLinesRoundTrip` | main.py:98 | for LF-only text, the split lines re-joined with line feeds give back the text (plus a final newline if it lacked one) |
| `Text.StripEnds` | main.py:100 | a stripped line neither starts nor ends with whitespace, and it is empty iff the line was all whitespace |
| `Query.BuildQueryRoundTrip` | main.py:117-131 | when the entry is not a URL and is a song or `top` is not negative, its query reads back as `ytsearch`, the count (1 for a song, `top` for an artist) and the entry itself |
| `Query.BuildQueryIsUrl` | main.py:112-131 | the built query is itself a URL iff the entry was one, or it is a song, or `top` is not negative |
| `Query.BuildQueryIdempotent` | main.py:117-124 | when the entry is a URL, a song, or `top` is not negative, building the query of a built query returns it unchanged |
| `Query.SplitSearchIff` | main.py:112-114 | the `ytsearch\d*:` alternative of `is_url` holds iff the query splits into prefix, digits and term |
| `ArtistKey.ExtractArtistName` | main.py:147-160 | the artist key is lower case and no longer than the title |
| `ArtistKey.ExtractArtistNameMatches` | main.py:147-160 | the key is the stripped, lower-cased lazy group of the separator pattern if it matches, else that of the feat/ft/com pattern, else the whole title lower-cased |
| `ArtistKey.SeparatorGroupLeast` | main.py:150 | the scan's group end lets `^(.*?)\s*[-–\|]\s*` match and no shorter group does |
| `ArtistKey.SeparatorGroupNone` | main.py:150 | when the scan finds no group, the separator pattern matches with no group end |
| `ArtistKey.FeatGroupLeast` | main.py:155 | the scan's group end lets `^(.*?)\s+(?:feat\.?\|ft\.?\|com)\s+` match (ignoring case) and no shorter group does |
| `ArtistKey.FeatGroupNone` | main.py:155 | when the scan finds no group, the marker pattern matches with no group end |
| `ArtistKey.ExtractArtistNameSpaced` | main.py:149-152 | for "Artist - Title" with no separator or line feed in the artist part, the key is that part stripped and lower-cased |
| `Ranking.LowPriorityIgnoresCase` | main.py:163-169 | a title and its lower-cased form are judged alike |
| `Ranking.LowPriorityWordSuffix` | main.py:78-82 | a title ending in a space and one of letra/playback/cover/karaoke/instrumental/piano/tutorial is low priority |
| `Ranking.LowPriorityNumberSuffix` | main.py:80 | a title ending in `#` and a digit is low priority |
| `Ranking.PriorityOnly` | main.py:180-182 | the priority list is no longer than the input and holds no low-priority title |
| `Ranking.RankSubMultiset` | main.py:172-200 | the ranked list is a sub-multiset of the candidates |
| `Ranking.RankNonEmpty` | main.py:174-175 | the ranked list is empty iff the input is |
| `Ranking.RankDropsLowPriority` | main.py:178-186 | with more than one candidate and some title not low priority, the ranked list holds exactly the priority candidates |
| `Ranking.RankKeepsAll` | main.py:177-186 | with one candidate, or when all titles are low priority, the ranked list is a permutation of the input |
| `Ranking.RankOrdered` | main.py:189-200 | the ranked list is sorted by the key tuple, and candidates with equal keys keep the filtered input's order |
| `Ranking.StableSortSorted` | main.py:189-200 | the sort's output is in ascending key order |
| `Ranking.StableSortPermutes` | main.py:189-200 | the sort's output is a permutation of its input |
| `Ranking.StableSortStable` | main.py:189-200 | for every key, the candidates with that key keep their input order |
| `Claims.ClaimRegistry.constructor` | main.py:550-552 | the registry starts empty, with every line capped |
| `Claims.ClaimRegistry.TryClaim` | main.py:387-404 | the lock block grants iff `Grants` holds (a line scope only while empty, an artist scope only for an absent title), the new dictionary is `AfterClaim` of the old one, and lines stay capped at one title |
| `Claims.AfterClaim` | main.py:272-293 | a claim leaves every other scope's titles unchanged |
| `Claims.AfterClaimEffect` | main.py:388-404 | a granted claim adds exactly the title to its scope, and a refused claim changes nothing |
| `Claims.AfterClaimGrows` | main.py:326-331 | no claim ever removes a title, whatever became of its download |
| `Claims.AfterClaimCapped` | main.py:388-396 | every line scope keeps at most one title |
| `Claims.ClaimedRefused` | main.py:398-404 | a title already claimed under its scope is refused |
| `Claims.ReplayNeverAgain` | main.py:398-404 | once a title is claimed under a scope, every later request for that pair is refused |
| `Claims.ReplayLineNeverAgain` | main.py:388-396 | once a line holds a title, every later request under that line is refused |
| `Claims.ReplayGrantsOnce` | main.py:387-404 | in any interleaving of lock blocks, the same (scope, title) pair is granted at most once |
| `Claims.ReplayLineOnce` | main.py:388-396 | in any interleaving, a line scope grants at most one request |
| `Claims.ReplayRace` | main.py:387-404 | n workers racing for the same unclaimed pair: exactly one wins, the first served |
| `Tracker.Record` | main.py:203-208 | recording appends the title to its line's list and leaves every other line unchanged |
| `Tracker.DownloadTracker.constructor` | main.py:85 | the log starts empty |
| `Tracker.DownloadTracker.Add` | main.py:203-208 | the log becomes `Record` of the old log |
| `Worker.FreshFrom` | main.py:355-369 | no kept candidate's lower-cased title is on disk |
| `Worker.FreshFromMembers` | main.py:355-369 | a candidate is kept iff it is a non-falsy item whose lower-cased title is not on disk |
| `Worker.DropExisting` | main.py:354-369 | the filtering loop yields `FreshFrom` of the items |
| `Worker.OfferItem` | main.py:255-293 | one pass of the playlist loop skips falsy and on-disk items, and otherwise claims the item under its scope and selects it iff granted |
| `Worker.SelectFromPlaylist` | main.py:255-293 | the playlist selection loop leaves the registry and the selection as `PlaylistSelect` says |
| `Worker.DownloadEach` | main.py:317-331 | the playlist download loop tries every ranked item and logs each success |
| `Worker.ClaimAt` | main.py:383-404 | one claim of the search loop, under the candidate's scope and lower-cased title |
| `Worker.ClaimAndTry` | main.py:380-419 | one pass of the search loop: the registry becomes `AfterClaim` of the candidate's claim, the log gains its title iff the claim was granted and the download succeeded, and the loop stops iff that happened for a song |
| `Worker.ClaimAndDownload` | main.py:380-433 | the search loop leaves registry and log as `ClaimLoop` says: claim in ranked order, download granted ones, stop a song after its first success |
| `Worker.PlaylistBranch` | main.py:250-339 | the playlist branch ends as `PlaylistEffect`: claim first, then rank, then download |
| `Worker.SearchBranch` | main.py:342-442 | the search branch ends as `SearchEffect`: drop on-disk titles, rank, cut to one for a song, claim and download |
| `Worker.DownloadSingle` | main.py:211-452 | the job ends with the registry and log that `Process` gives for the resolver's answer to `build_query` |
| `Worker.SearchPlanUnseen` | main.py:356-378 | the search plan holds only candidates whose titles are not on disk |
| `Worker.ClaimLoopSpecific` | main.py:375-419 | a specific song's search loop tries at most one download |
| `Worker.PlaylistSelectSpecific` | main.py:275-283 | a specific song's playlist selection picks at most one item, and none once its line holds a title |
| `Worker.DownloadAllTrace` | main.py:317-320 | the playlist download loop tries the plan's candidates in order, all of them |
| `Worker.ProcessClaims` | main.py:255-293 | one job's registry only grows, gains only titles not on disk, and keeps lines capped |
| `Worker.ProcessAttempts` | main.py:356-419 | every download a job tries was claimed by it under its own scope and title and is not on disk; no claim is tried twice; a song tries at most one |
| `Worker.ProcessLog` | main.py:317-325 | a job appends exactly its successful downloads' titles to its own line, in order, and nothing elsewhere |
| `Worker.ProcessRerun` | main.py:259-266 | a job whose offered titles are all on disk changes nothing |
| `Scheduler.RunPool` | main.py:564-584 | the pool leaves registry and log as `Run` says for the jobs in the order run |
| `Scheduler.RunFromClaims` | main.py:272-293 | over a run, the registry only grows, gains no title on disk and keeps lines capped |
| `Scheduler.RunFromAttempts` | main.py:387-409 | every download tried in a run was claimed in it, and no two, from one job or two, share a claim |
| `Scheduler.RunFromTagged` | main.py:375-419 | each job tries only downloads tagged with its own scope, and a song's job at most one |
| `Scheduler.RunFromLog` | main.py:203-208 | with distinct lines, each job's line gains exactly its job's successes, and other lines are unchanged |
| `Scheduler.RunFromRerun` | main.py:362-367 | jobs whose offered titles are all on disk change nothing |
| `Scheduler.RunSpecificAtMostOne` | main.py:387-419 | from an empty start, each line's log is its job's successes, a specific song's line holds at most one title, and unused lines hold none |
| `Scheduler.RunArtistTitlesOnce` | main.py:398-404 | across the run, downloads for artist entries with the same artist key have different titles, and none is a title on disk |
| `Scheduler.RunClaimsCapped` | main.py:388-396 | after the run every line scope holds at most one title and no claimed title was on disk |
| `Scheduler.RunIdempotent` | main.py:525 | when everything offered is already on disk, a run claims, tries and logs nothing |
| `Scheduler.PoolOrderDistinct` | main.py:564-581 | in whatever order the pool runs the parsed entries, their line numbers are distinct |
| `Summary.Clipped` | main.py:613 | a shown item is at most 45 characters, whole and quoted when it fits in 40, else its first 40 characters and `...` |
| `Summary.DisplayListNone` | main.py:618-621 | the list is `None` iff nothing was downloaded, and otherwise it starts with a quoted title |
| `Summary.DisplayListFull` | main.py:618-619 | with one to three downloads every title appears whole, in quotes |
| `Summary.DisplayListTruncated` | main.py:610-617 | with more than three, each of the first three appears clipped, and the list ends with `" and {n-3} more songs"`, whose number reads back |
| `Summary.DisplayListBounded` | main.py:610-617 | with more than three, the list's length is bounded whatever the titles' lengths |
| `Summary.SongsCellCount` | main.py:624 | the cell starts with the number of downloads, which reads back, followed by the list in parentheses |
| `Summary.SongsCellSingle` | main.py:604-624 | a line with at most one download shows `0 (None)` or `1 ('title')` |
| `Summary.SortByLineSorted` | main.py:604 | `sorted(entries, key=line)` yields the entries in non-decreasing line order |
| `Summary.SortByLinePermutes` | main.py:604 | the sorted entries are a permutation of the input |
| `Summary.SortByLineIdentity` | main.py:604 | entries already in strictly increasing line order come out unchanged |
| `Summary.RowsByLine` | main.py:604-625 | whatever the input order, the rows' line cells read back as non-decreasing line numbers |
| `Summary.ParsedRows` | main.py:604-625 | for parsed entries, row `k` is built from entry `k` and the log: the sort changes nothing |
| `Summary.RowsInLineOrder` | main.py:604 | the rows of parsed entries come in strictly increasing line order, and each line cell reads back as its line number |
| `Batch.ExistingTitles` | main.py:525 | without `--force` the exclusion set is the scanned titles, and with `--force` it is empty |
| `Batch.RunBatch` | main.py:513-625 | no entries gives the error exit; otherwise the rows are built from the log of the pool's run from an empty registry and log |
| `Batch.PoolSpecificAtMostOne` | main.py:564-584 | in any pool order, a specific song's line ends the run with at most one title |
| `Batch.BatchSpecificRows` | main.py:604-625 | in any batch, a specific song's row is of type Song and shows no title or exactly one |
| `Batch.BatchRerun` | main.py:525 | re-running without `--force` once everything offered is on disk shows no download in any row |

## Left out

- The yt-dlp library (`extract_info`, `process_ie_result`, the late import and its `ImportError` branch at main.py:224-231): a foreign network library. Resolution is a function of the query, and downloads are an oracle of booleans.
- Resolver answers depend only on the query string. Two entries with the same query get the same answer, which a real network need not give.
- Threads: `ThreadPoolExecutor` and the locks are not modelled. Each `with lock:` block is one atomic step. `Claims.Replay` covers any interleaving of claim blocks. The pool runs whole jobs one after another in an arbitrary order, so one job's claims are not interleaved with another's downloads. Some interleaved outcomes have no whole-job order. Take two artist entries with the same artist key whose plans are [T1, T2] and [T2, T1]: interleaved, each can end with one title, but run one after the other, the first takes both. So the per-line log results (`Scheduler.RunFromLog` and the log half of `Scheduler.RunSpecificAtMostOne`) hold only for whole-job schedules. The registry's safety carries over to every interleaving only through `Claims.Replay`.
- File system: `read_text`, `mkdir`, the input-file existence check and `get_existing_files` (its result is the input `scanned`), and `new_files_count` (main.py:589-592), which is a difference of two directory scans.
- Presentation: the Rich console messages, the progress bar, the configuration table, the song/artist counts shown in it, and the result panel. Also the argparse command line, `time.time()` and the float `elapsed`, and `YTDLP_OPTS_BASE`.
- Python's Unicode character classes are approximated. `\s` is `str.isspace`'s set, `\w` is ASCII plus Latin-1 letters and digits, `\d` is ASCII digits, and `lower()` and `IGNORECASE` case-fold ASCII and Latin-1 only.
- Worker.ClaimTitle, Worker.ShownTitle, Worker.ArtistOf, Ranking.PriorityOnly, Ranking.KeyOf: a `title`, `ext` or `duration` key that is present with the value `None` is treated as a missing key (`"Unknown"`, `""` or 0). In the source these raise instead. The `.lower()` calls raise `AttributeError`: at main.py:259, 360 and 383, and at main.py:165 in `is_low_priority_version`, reached from main.py:181. The others raise `TypeError`: `re.match` at main.py:150 in `extract_artist_name`, reached from main.py:269 and 384, `"webm" in None` at main.py:193 and `None > 600` at main.py:195. The `except Exception` of main.py:447-451 catches both kinds and ends that job part-way. The claims the job has already made stay in `artist_tracker`. Modelling this would need a third "present but None" state in every candidate field.
- The entry point's `sys.exit(1)` paths: a missing input file is file-system work, and no entries is `Batch.NoEntries`.
