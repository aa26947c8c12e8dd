/**
 * The worker pool of `main`: one `download_single` job per entry, all
 * sharing the claim registry and the download log. Threads are not
 * modelled; each lock-protected block is atomic, and the pool is taken to
 * run whole jobs one after another in an order it chooses (the `jobs`
 * sequence below is the entries in that order). Interleavings of single
 * claims are covered by `Claims.Replay`.
 */
module Scheduler {
  import opened Entries
  import opened Query
  import opened Claims
  import opened Tracker
  import opened Worker

  /** The downloader's outcomes for the job at position `k`; a job the oracle does not cover fails every download. */
  function JobOutcomes(outcomes: seq<seq<bool>>, k: nat): seq<bool> {
    if k < |outcomes| then outcomes[k] else []
  }

  /** What the resolver returns for an entry's query. */
  function ResolveEntry(e: Entry, top: int, resolve: string -> Resolved): Resolved {
    resolve(BuildQuery(e.text, top, e.specific))
  }

  /** The run's outcome: the registry and log afterwards, and the downloads each job tried, job by job. */
  datatype RunEffect = RunEffect(claims: ClaimMap, log: Log, tried: seq<seq<Attempt>>)

  /** The jobs from position `i` on, each run to completion against the state the previous one left. */
  function RunFrom(jobs: seq<Entry>, i: nat, top: int, resolve: string -> Resolved, existing: set<string>,
                   outcomes: seq<seq<bool>>, claims: ClaimMap, log: Log): (r: RunEffect)
    requires i <= |jobs|
    ensures |r.tried| == |jobs| - i
    decreases |jobs| - i
  {
    if i == |jobs| then RunEffect(claims, log, [])
    else
      var first := Process(jobs[i], ResolveEntry(jobs[i], top, resolve), existing, claims, log, JobOutcomes(outcomes, i));
      var rest := RunFrom(jobs, i + 1, top, resolve, existing, outcomes, first.claims, first.log);
      RunEffect(rest.claims, rest.log, [first.attempts] + rest.tried)
  }

  /** The whole run, from the given registry and log. */
  function Run(jobs: seq<Entry>, top: int, resolve: string -> Resolved, existing: set<string>,
               outcomes: seq<seq<bool>>, claims: ClaimMap, log: Log): RunEffect {
    RunFrom(jobs, 0, top, resolve, existing, outcomes, claims, log)
  }

  /** No two jobs carry the same line number. */
  predicate DistinctLines(jobs: seq<Entry>) {
    forall j, k :: 0 <= j < k < |jobs| ==> jobs[j].lineNum != jobs[k].lineNum
  }

  /** No job from position `i` on carries `line`. */
  predicate LineUnused(jobs: seq<Entry>, i: nat, line: int) {
    forall k :: i <= k < |jobs| ==> jobs[k].lineNum != line
  }

  /** Every download tried in the run was claimed in it (off the disk, unclaimed before, claimed after). */
  predicate RunClaimed(c0: ClaimMap, c1: ClaimMap, existing: set<string>, tried: seq<seq<Attempt>>) {
    forall k, i :: 0 <= k < |tried| && 0 <= i < |tried[k]| ==> ItemClaimed(c0, c1, existing, tried[k][i].item)
  }

  /** No two downloads tried in the run, by the same job or by different ones, share a claim. */
  predicate RunDistinct(tried: seq<seq<Attempt>>) {
    forall k1, i1, k2, i2 ::
      && 0 <= k1 < |tried| && 0 <= i1 < |tried[k1]|
      && 0 <= k2 < |tried| && 0 <= i2 < |tried[k2]|
      && (k1 != k2 || i1 != i2)
      ==> ClaimOf(tried[k1][i1].item) != ClaimOf(tried[k2][i2].item)
  }

  // ---------------------------------------------------------------------
  // The run, by induction over the jobs
  // ---------------------------------------------------------------------

  /** The registry only grows over the run, gains only titles off the disk and keeps every line at one title. */
  lemma {:induction false} RunFromClaims(jobs: seq<Entry>, i: nat, top: int, resolve: string -> Resolved, existing: set<string>,
                                         outcomes: seq<seq<bool>>, claims: ClaimMap, log: Log)
    requires i <= |jobs|
    ensures var r := RunFrom(jobs, i, top, resolve, existing, outcomes, claims, log);
      Grown(claims, r.claims) && NewClaimsFresh(claims, r.claims, existing) && (LineCapped(claims) ==> LineCapped(r.claims))
    decreases |jobs| - i
  {
    if i < |jobs| {
      var first := Process(jobs[i], ResolveEntry(jobs[i], top, resolve), existing, claims, log, JobOutcomes(outcomes, i));
      ProcessClaims(jobs[i], ResolveEntry(jobs[i], top, resolve), existing, claims, log, JobOutcomes(outcomes, i));
      RunFromClaims(jobs, i + 1, top, resolve, existing, outcomes, first.claims, first.log);
      var rest := RunFrom(jobs, i + 1, top, resolve, existing, outcomes, first.claims, first.log);
      GrownTrans(claims, first.claims, rest.claims);
      NewClaimsFreshTrans(claims, first.claims, rest.claims, existing);
    }
  }

  /** One job's attempts followed by the later jobs' attempts: together still claimed in the run, and pairwise distinct. */
  lemma RunCons(c0: ClaimMap, c1: ClaimMap, c2: ClaimMap, existing: set<string>, first: seq<Attempt>, rest: seq<seq<Attempt>>)
    requires Grown(c0, c1) && Grown(c1, c2)
    requires AttemptsClaimed(c0, c1, existing, first)
    requires RunClaimed(c1, c2, existing, rest) && RunDistinct(rest)
    ensures RunClaimed(c0, c2, existing, [first] + rest) && RunDistinct([first] + rest)
  {
    var tried: seq<seq<Attempt>> := [first] + rest;
    forall k, i | 0 <= k < |tried| && 0 <= i < |tried[k]| ensures ItemClaimed(c0, c2, existing, tried[k][i].item) {
      var x := tried[k][i].item;
      if k == 0 {
        assert ItemClaimed(c0, c1, existing, first[i].item);
        assert Claimed(c1, x.scope) <= Claimed(c2, x.scope);
      } else {
        assert tried[k] == rest[k - 1];
        assert ItemClaimed(c1, c2, existing, rest[k - 1][i].item);
        assert Claimed(c0, x.scope) <= Claimed(c1, x.scope);
      }
    }
    forall k1, i1, k2, i2 |
      && 0 <= k1 < |tried| && 0 <= i1 < |tried[k1]|
      && 0 <= k2 < |tried| && 0 <= i2 < |tried[k2]|
      && (k1 != k2 || i1 != i2)
      ensures ClaimOf(tried[k1][i1].item) != ClaimOf(tried[k2][i2].item)
    {
      var x, y := tried[k1][i1].item, tried[k2][i2].item;
      if k1 == 0 && k2 == 0 {
        if i1 < i2 {
          assert ClaimOf(first[i1].item) != ClaimOf(first[i2].item);
        } else {
          assert ClaimOf(first[i2].item) != ClaimOf(first[i1].item);
        }
      } else if k1 == 0 {
        assert ItemClaimed(c0, c1, existing, first[i1].item);
        assert tried[k2] == rest[k2 - 1];
        assert ItemClaimed(c1, c2, existing, rest[k2 - 1][i2].item);
      } else if k2 == 0 {
        assert ItemClaimed(c0, c1, existing, first[i2].item);
        assert tried[k1] == rest[k1 - 1];
        assert ItemClaimed(c1, c2, existing, rest[k1 - 1][i1].item);
      } else {
        assert tried[k1] == rest[k1 - 1] && tried[k2] == rest[k2 - 1];
        assert ClaimOf(rest[k1 - 1][i1].item) != ClaimOf(rest[k2 - 1][i2].item);
      }
    }
  }

  /** Each job from position `i` tried only downloads tagged for its own entry, and at most one for a specific song. */
  predicate JobsTagged(jobs: seq<Entry>, i: nat, tried: seq<seq<Attempt>>) {
    forall k :: 0 <= k < |tried| && i + k < |jobs| ==>
      AttemptsTagged(jobs[i + k], tried[k]) && (jobs[i + k].specific ==> |tried[k]| <= 1)
  }

  lemma JobsTaggedCons(jobs: seq<Entry>, i: nat, first: seq<Attempt>, rest: seq<seq<Attempt>>)
    requires i < |jobs| && AttemptsTagged(jobs[i], first) && (jobs[i].specific ==> |first| <= 1)
    requires JobsTagged(jobs, i + 1, rest)
    ensures JobsTagged(jobs, i, [first] + rest)
  {
    var tried: seq<seq<Attempt>> := [first] + rest;
    forall k | 0 < k < |tried| && i + k < |jobs|
      ensures AttemptsTagged(jobs[i + k], tried[k]) && (jobs[i + k].specific ==> |tried[k]| <= 1)
    {
      assert tried[k] == rest[k - 1] && i + k == (i + 1) + (k - 1);
    }
  }

  /**
   * Every download tried in the run was claimed by it, for a title off the
   * disk, and no claim is downloaded twice, by one job or by two.
   */
  lemma {:induction false} RunFromAttempts(jobs: seq<Entry>, i: nat, top: int, resolve: string -> Resolved, existing: set<string>,
                                           outcomes: seq<seq<bool>>, claims: ClaimMap, log: Log)
    requires i <= |jobs|
    ensures var r := RunFrom(jobs, i, top, resolve, existing, outcomes, claims, log);
      RunClaimed(claims, r.claims, existing, r.tried) && RunDistinct(r.tried)
    decreases |jobs| - i
  {
    if i < |jobs| {
      var info := ResolveEntry(jobs[i], top, resolve);
      var first := Process(jobs[i], info, existing, claims, log, JobOutcomes(outcomes, i));
      ProcessClaims(jobs[i], info, existing, claims, log, JobOutcomes(outcomes, i));
      ProcessAttempts(jobs[i], info, existing, claims, log, JobOutcomes(outcomes, i));
      RunFromClaims(jobs, i + 1, top, resolve, existing, outcomes, first.claims, first.log);
      RunFromAttempts(jobs, i + 1, top, resolve, existing, outcomes, first.claims, first.log);
      var rest := RunFrom(jobs, i + 1, top, resolve, existing, outcomes, first.claims, first.log);
      RunCons(claims, first.claims, rest.claims, existing, first.attempts, rest.tried);
    }
  }

  /** Each job tries only downloads tagged with its own entry's scope and title, and a specific song's job at most one. */
  lemma {:induction false} RunFromTagged(jobs: seq<Entry>, i: nat, top: int, resolve: string -> Resolved, existing: set<string>,
                                         outcomes: seq<seq<bool>>, claims: ClaimMap, log: Log)
    requires i <= |jobs|
    ensures JobsTagged(jobs, i, RunFrom(jobs, i, top, resolve, existing, outcomes, claims, log).tried)
    decreases |jobs| - i
  {
    if i < |jobs| {
      var info := ResolveEntry(jobs[i], top, resolve);
      var first := Process(jobs[i], info, existing, claims, log, JobOutcomes(outcomes, i));
      ProcessAttempts(jobs[i], info, existing, claims, log, JobOutcomes(outcomes, i));
      RunFromTagged(jobs, i + 1, top, resolve, existing, outcomes, first.claims, first.log);
      var rest := RunFrom(jobs, i + 1, top, resolve, existing, outcomes, first.claims, first.log);
      JobsTaggedCons(jobs, i, first.attempts, rest.tried);
    }
  }

  /** Each job's line gained exactly the titles of that job's successful downloads. */
  ghost predicate JobsLogged(log0: Log, log1: Log, jobs: seq<Entry>, i: nat, tried: seq<seq<Attempt>>) {
    forall k :: 0 <= k < |tried| && i + k < |jobs| ==>
      Downloaded(log1, jobs[i + k].lineNum) == Downloaded(log0, jobs[i + k].lineNum) + Successes(tried[k])
  }

  /** The lines no job from position `i` on carries kept what they had. */
  ghost predicate OthersKept(log0: Log, log1: Log, jobs: seq<Entry>, i: nat) {
    forall line :: LineUnused(jobs, i, line) ==> Downloaded(log1, line) == Downloaded(log0, line)
  }

  /** The lines not carried from position `i` on kept what they had, when job `i` logged only on its own line. */
  lemma OthersKeptCons(log0: Log, log1: Log, log2: Log, jobs: seq<Entry>, i: nat, first: seq<Attempt>)
    requires i < |jobs|
    requires LoggedAt(log0, log1, jobs[i].lineNum, Successes(first))
    requires OthersKept(log1, log2, jobs, i + 1)
    ensures OthersKept(log0, log2, jobs, i)
  {
    forall other | LineUnused(jobs, i, other) ensures Downloaded(log2, other) == Downloaded(log0, other) {
      assert jobs[i].lineNum != other;
      assert LineUnused(jobs, i + 1, other);
      assert Downloaded(log1, other) == Downloaded(log0, other);
    }
  }

  lemma JobsLoggedCons(log0: Log, log1: Log, log2: Log, jobs: seq<Entry>, i: nat, first: seq<Attempt>, rest: seq<seq<Attempt>>)
    requires i < |jobs| && DistinctLines(jobs)
    requires LoggedAt(log0, log1, jobs[i].lineNum, Successes(first))
    requires JobsLogged(log1, log2, jobs, i + 1, rest) && OthersKept(log1, log2, jobs, i + 1)
    ensures JobsLogged(log0, log2, jobs, i, [first] + rest)
  {
    var line := jobs[i].lineNum;
    var tried: seq<seq<Attempt>> := [first] + rest;
    assert LineUnused(jobs, i + 1, line);
    assert Downloaded(log2, line) == Downloaded(log1, line);
    assert tried[0] == first;
    forall k | 0 < k < |tried| && i + k < |jobs|
      ensures Downloaded(log2, jobs[i + k].lineNum) == Downloaded(log0, jobs[i + k].lineNum) + Successes(tried[k])
    {
      var other := jobs[i + k].lineNum;
      assert tried[k] == rest[k - 1] && i + k == (i + 1) + (k - 1);
      assert other != line;
      assert Downloaded(log1, other) == Downloaded(log0, other);
    }
  }

  /**
   * With distinct line numbers, each job's line gains exactly the titles of
   * that job's successful downloads, in order, and every other line keeps
   * what it had.
   */
  lemma {:induction false} RunFromLog(jobs: seq<Entry>, i: nat, top: int, resolve: string -> Resolved, existing: set<string>,
                                      outcomes: seq<seq<bool>>, claims: ClaimMap, log: Log)
    requires i <= |jobs| && DistinctLines(jobs)
    ensures var r := RunFrom(jobs, i, top, resolve, existing, outcomes, claims, log);
      JobsLogged(log, r.log, jobs, i, r.tried) && OthersKept(log, r.log, jobs, i)
    decreases |jobs| - i
  {
    if i < |jobs| {
      var e := jobs[i];
      var info := ResolveEntry(e, top, resolve);
      var first := Process(e, info, existing, claims, log, JobOutcomes(outcomes, i));
      ProcessLog(e, info, existing, claims, log, JobOutcomes(outcomes, i));
      RunFromLog(jobs, i + 1, top, resolve, existing, outcomes, first.claims, first.log);
      var rest := RunFrom(jobs, i + 1, top, resolve, existing, outcomes, first.claims, first.log);
      JobsLoggedCons(log, first.log, rest.log, jobs, i, first.attempts, rest.tried);
      OthersKeptCons(log, first.log, rest.log, jobs, i, first.attempts);
    }
  }

  /** The items the resolver offers an entry are all on disk already. */
  predicate AllOnDisk(e: Entry, top: int, resolve: string -> Resolved, existing: set<string>) {
    var items := OfferedItems(ResolveEntry(e, top, resolve));
    forall k :: 0 <= k < |items| && items[k].Some? ==> ClaimTitle(items[k].value) in existing
  }

  /** The jobs from `i` on change nothing when everything they are offered is on disk. */
  lemma {:induction false} RunFromRerun(jobs: seq<Entry>, i: nat, top: int, resolve: string -> Resolved, existing: set<string>,
                                        outcomes: seq<seq<bool>>, claims: ClaimMap, log: Log)
    requires i <= |jobs|
    requires forall k :: i <= k < |jobs| ==> AllOnDisk(jobs[k], top, resolve, existing)
    ensures var r := RunFrom(jobs, i, top, resolve, existing, outcomes, claims, log);
      r.claims == claims && r.log == log && forall k :: 0 <= k < |r.tried| ==> r.tried[k] == []
    decreases |jobs| - i
  {
    if i < |jobs| {
      ProcessRerun(jobs[i], ResolveEntry(jobs[i], top, resolve), existing, claims, log, JobOutcomes(outcomes, i));
      RunFromRerun(jobs, i + 1, top, resolve, existing, outcomes, claims, log);
      var rest := RunFrom(jobs, i + 1, top, resolve, existing, outcomes, claims, log);
      var r := RunFrom(jobs, i, top, resolve, existing, outcomes, claims, log);
      assert r.tried == [[]] + rest.tried;
      forall k | 1 <= k < |r.tried| ensures r.tried[k] == [] {
        assert r.tried[k] == rest.tried[k - 1];
      }
    }
  }

  // ---------------------------------------------------------------------
  // What the run guarantees
  // ---------------------------------------------------------------------

  /**
   * Starting from the empty registry and log, whatever order the pool runs
   * the entries in and whichever downloads fail: a specific song's line
   * ends with at most one downloaded title, and every line's list is
   * exactly its own job's successful downloads.
   */
  lemma RunSpecificAtMostOne(jobs: seq<Entry>, top: int, resolve: string -> Resolved, existing: set<string>, outcomes: seq<seq<bool>>)
    requires DistinctLines(jobs)
    ensures var r := Run(jobs, top, resolve, existing, outcomes, map[], map[]);
      && (forall k :: 0 <= k < |jobs| ==> Downloaded(r.log, jobs[k].lineNum) == Successes(r.tried[k]))
      && (forall k :: 0 <= k < |jobs| && jobs[k].specific ==> |Downloaded(r.log, jobs[k].lineNum)| <= 1)
      && (forall line :: LineUnused(jobs, 0, line) ==> Downloaded(r.log, line) == [])
  {
    RunFromLog(jobs, 0, top, resolve, existing, outcomes, map[], map[]);
    RunFromTagged(jobs, 0, top, resolve, existing, outcomes, map[], map[]);
    var r := Run(jobs, top, resolve, existing, outcomes, map[], map[]);
    forall k | 0 <= k < |jobs|
      ensures Downloaded(r.log, jobs[k].lineNum) == Successes(r.tried[k])
      ensures jobs[k].specific ==> |Downloaded(r.log, jobs[k].lineNum)| <= 1
    {
      assert 0 + k == k;
      assert Downloaded(map[], jobs[k].lineNum) == [];
    }
    forall line | LineUnused(jobs, 0, line) ensures Downloaded(r.log, line) == [] {
      assert Downloaded(map[], line) == [];
    }
  }

  /**
   * Across the whole run, artist entries on different lines included: two
   * downloads tried for artist entries whose candidates have the same
   * artist key are for different titles, and no download is tried for a
   * title already on disk.
   */
  lemma RunArtistTitlesOnce(jobs: seq<Entry>, top: int, resolve: string -> Resolved, existing: set<string>,
                            outcomes: seq<seq<bool>>, k1: nat, i1: nat, k2: nat, i2: nat)
    requires var r := Run(jobs, top, resolve, existing, outcomes, map[], map[]);
      && k1 < |jobs| && i1 < |r.tried[k1]| && k2 < |jobs| && i2 < |r.tried[k2]| && (k1 != k2 || i1 != i2)
    ensures var r := Run(jobs, top, resolve, existing, outcomes, map[], map[]);
      var a, b := r.tried[k1][i1].item.candidate, r.tried[k2][i2].item.candidate;
      && ClaimTitle(a) !in existing
      && (!jobs[k1].specific && !jobs[k2].specific && ArtistOf(a) == ArtistOf(b) ==> ClaimTitle(a) != ClaimTitle(b))
  {
    RunFromAttempts(jobs, 0, top, resolve, existing, outcomes, map[], map[]);
    RunFromTagged(jobs, 0, top, resolve, existing, outcomes, map[], map[]);
    var r := Run(jobs, top, resolve, existing, outcomes, map[], map[]);
    var x, y := r.tried[k1][i1].item, r.tried[k2][i2].item;
    assert ItemClaimed(map[], r.claims, existing, x);
    assert ClaimOf(x) != ClaimOf(y);
    assert 0 + k1 == k1 && 0 + k2 == k2;
    assert AttemptsTagged(jobs[k1], r.tried[k1]) && AttemptsTagged(jobs[k2], r.tried[k2]);
    assert x == Tagged(jobs[k1], x.candidate) && y == Tagged(jobs[k2], y.candidate);
  }

  /** Every line scope of the registry holds at most one title after the run, and no claimed title was on disk. */
  lemma RunClaimsCapped(jobs: seq<Entry>, top: int, resolve: string -> Resolved, existing: set<string>, outcomes: seq<seq<bool>>)
    ensures var r := Run(jobs, top, resolve, existing, outcomes, map[], map[]);
      LineCapped(r.claims) && forall s, t :: t in Claimed(r.claims, s) ==> t !in existing
  {
    RunFromClaims(jobs, 0, top, resolve, existing, outcomes, map[], map[]);
    assert LineCapped(map[]);
  }

  /**
   * A second run, once everything the resolver offers is on disk from the
   * first, claims nothing, tries nothing and logs nothing.
   */
  lemma RunIdempotent(jobs: seq<Entry>, top: int, resolve: string -> Resolved, existing: set<string>, outcomes: seq<seq<bool>>)
    requires forall k :: 0 <= k < |jobs| ==> AllOnDisk(jobs[k], top, resolve, existing)
    ensures var r := Run(jobs, top, resolve, existing, outcomes, map[], map[]);
      r.claims == map[] && r.log == map[] && forall k :: 0 <= k < |r.tried| ==> r.tried[k] == []
  {
    RunFromRerun(jobs, 0, top, resolve, existing, outcomes, map[], map[]);
  }

  /** The entries of `entries` in the order `order` names them. */
  function InOrder(entries: seq<Entry>, order: seq<nat>): (jobs: seq<Entry>)
    requires forall k :: 0 <= k < |order| ==> order[k] < |entries|
    ensures |jobs| == |order|
    ensures forall k :: 0 <= k < |order| ==> jobs[k] == entries[order[k]]
  {
    seq(|order|, k requires 0 <= k < |order| => entries[order[k]])
  }

  /** `order` runs each of `n` entries exactly once. */
  predicate IsOrder(order: seq<nat>, n: nat) {
    && |order| == n
    && (forall k :: 0 <= k < |order| ==> order[k] < n)
    && (forall j, k :: 0 <= j < k < |order| ==> order[j] != order[k])
  }

  /** Whatever order the pool picks, the parsed entries it runs carry distinct line numbers. */
  lemma PoolOrderDistinct(lines: seq<string>, order: seq<nat>)
    requires forall k :: 0 <= k < |order| ==> order[k] < |Classified(lines)|
    requires forall j, k :: 0 <= j < k < |order| ==> order[j] != order[k]
    ensures DistinctLines(InOrder(Classified(lines), order))
  {
    var entries := Classified(lines);
    var jobs := InOrder(entries, order);
    forall j, k | 0 <= j < k < |jobs| ensures jobs[j].lineNum != jobs[k].lineNum {
      if order[j] < order[k] {
        ClassifiedIncreasing(lines, order[j], order[k]);
      } else {
        ClassifiedIncreasing(lines, order[k], order[j]);
      }
    }
  }

  /**
   * The pool: runs the jobs in the order given, each job's lock-protected
   * blocks against the one shared registry and log.
   */
  method RunPool(jobs: seq<Entry>, top: int, resolve: string -> Resolved, existing: set<string>, outcomes: seq<seq<bool>>,
                 reg: ClaimRegistry, tracker: DownloadTracker)
    requires reg.Valid()
    modifies reg, tracker
    ensures reg.Valid()
    ensures var r := Run(jobs, top, resolve, existing, outcomes, old(reg.claims), old(tracker.log));
      reg.claims == r.claims && tracker.log == r.log
  {
    ghost var goal := Run(jobs, top, resolve, existing, outcomes, reg.claims, tracker.log);
    var i := 0;
    while i < |jobs|
      invariant 0 <= i <= |jobs| && reg.Valid()
      invariant RunFrom(jobs, i, top, resolve, existing, outcomes, reg.claims, tracker.log).claims == goal.claims
      invariant RunFrom(jobs, i, top, resolve, existing, outcomes, reg.claims, tracker.log).log == goal.log
    {
      DownloadSingle(jobs[i], top, resolve, existing, JobOutcomes(outcomes, i), reg, tracker);
      i := i + 1;
    }
  }
}
