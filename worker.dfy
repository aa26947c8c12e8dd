/**
 * One worker's job (`download_single`): resolve the entry's query, drop the
 * titles already on disk, claim titles in the shared registry and download
 * the claimed ones, recording each success in the download log.
 *
 * The resolver and the downloader are outside the model: the resolver is a
 * function from the query to what it returns, and the downloader an oracle
 * telling, for each position of the download plan, whether that download
 * succeeds. The functions below state what the job does to the registry and
 * the log; the methods at the end do it step by step.
 */
module Worker {
  import opened Options
  import opened Text
  import opened Entries
  import opened Query
  import opened ArtistKey
  import opened Ranking
  import opened Claims
  import opened Tracker

  /**
   * What resolving a query yields: an error raised by the resolver, a falsy
   * result, a playlist, a list of results (a list, or a dictionary with
   * `entries` that is not a playlist), or a single video. A `None` item
   * stands for a falsy item, which the worker skips.
   */
  datatype Resolved =
    | ResolveFailed
    | NothingFound
    | Playlist(title: Option<string>, items: seq<Option<Candidate>>)
    | Listing(items: seq<Option<Candidate>>)
    | Video(video: Candidate)

  /** A candidate with the scope and the lower-cased title it is claimed under, both computed before the lock is taken. */
  datatype Claimable = Claimable(candidate: Candidate, scope: Scope, title: string)

  /** One download tried, and whether it succeeded. */
  datatype Attempt = Attempt(item: Claimable, ok: bool)

  /** The job's outcome: the registry and log afterwards, and the downloads it tried, in order. */
  datatype Effect = Effect(claims: ClaimMap, log: Log, attempts: seq<Attempt>)

  /** `item.get("title", "Unknown").lower()`: the title compared with the files on disk and claimed. */
  function ClaimTitle(c: Candidate): string {
    Lower(c.title.GetOr("Unknown"))
  }

  /** `item.get("title", "Unknown")`: the title recorded in the log. */
  function ShownTitle(c: Candidate): string {
    c.title.GetOr("Unknown")
  }

  /** `extract_artist_name(item.get("title", ""))`. */
  function ArtistOf(c: Candidate): string {
    ExtractArtistName(c.title.GetOr(""))
  }

  /** The claim scope: the entry's line for a specific song, the candidate's artist otherwise. */
  function ScopeOf(e: Entry, c: Candidate): Scope {
    if e.specific then LineScope(e.lineNum) else ArtistScope(ArtistOf(c))
  }

  /** A candidate with its claim scope and title. */
  function Tagged(e: Entry, c: Candidate): Claimable {
    Claimable(c, ScopeOf(e, c), ClaimTitle(c))
  }

  /** An item tagged; a falsy item stays falsy. */
  function TagItem(e: Entry, item: Option<Candidate>): Option<Claimable> {
    if item.Some? then Some(Tagged(e, item.value)) else None
  }

  /** Each candidate tagged. */
  function Tag(e: Entry, cs: seq<Candidate>): (xs: seq<Claimable>)
    ensures |xs| == |cs|
    decreases |cs|
  {
    if cs == [] then [] else [Tagged(e, cs[0])] + Tag(e, cs[1..])
  }

  /** Each item tagged. */
  function TagItems(e: Entry, items: seq<Option<Candidate>>): (xs: seq<Option<Claimable>>)
    ensures |xs| == |items|
    decreases |items|
  {
    if items == [] then [] else [TagItem(e, items[0])] + TagItems(e, items[1..])
  }

  /** Position `k` of the tagged sequence is the tag of candidate `k`. */
  lemma {:induction false} TagAt(e: Entry, cs: seq<Candidate>)
    ensures forall k :: 0 <= k < |cs| ==> Tag(e, cs)[k] == Tagged(e, cs[k])
    decreases |cs|
  {
    if cs != [] {
      TagAt(e, cs[1..]);
      forall k | 1 <= k < |cs| ensures Tag(e, cs)[k] == Tagged(e, cs[k]) {
        assert Tag(e, cs)[k] == Tag(e, cs[1..])[k - 1];
        assert cs[1..][k - 1] == cs[k];
      }
    }
  }

  /** Position `k` of the tagged items is the tag of item `k`. */
  lemma {:induction false} TagItemsAt(e: Entry, items: seq<Option<Candidate>>)
    ensures forall k :: 0 <= k < |items| ==> TagItems(e, items)[k] == TagItem(e, items[k])
    decreases |items|
  {
    if items != [] {
      TagItemsAt(e, items[1..]);
      forall k | 1 <= k < |items| ensures TagItems(e, items)[k] == TagItem(e, items[k]) {
        assert TagItems(e, items)[k] == TagItems(e, items[1..])[k - 1];
        assert items[1..][k - 1] == items[k];
      }
    }
  }

  /** Tagging keeps the candidates, in order. */
  lemma TagCandidates(e: Entry, cs: seq<Candidate>)
    ensures forall k :: 0 <= k < |cs| ==> Tag(e, cs)[k].candidate == cs[k]
  {
    TagAt(e, cs);
  }

  /** The candidates of tagged candidates. */
  function Candidates(xs: seq<Claimable>): (cs: seq<Candidate>)
    ensures |cs| == |xs|
    ensures forall k :: 0 <= k < |xs| ==> cs[k] == xs[k].candidate
  {
    seq(|xs|, k requires 0 <= k < |xs| => xs[k].candidate)
  }

  /** Whether the download at position `i` of the plan succeeds; positions the oracle does not cover fail. */
  function Outcome(outcomes: seq<bool>, i: nat): bool {
    i < |outcomes| && outcomes[i]
  }

  /** The items from `i` on that are neither falsy nor already on disk, in order. */
  function FreshFrom(items: seq<Option<Candidate>>, existing: set<string>, i: nat): (unseen: seq<Candidate>)
    requires i <= |items|
    ensures forall k :: 0 <= k < |unseen| ==> ClaimTitle(unseen[k]) !in existing
    decreases |items| - i
  {
    if i == |items| then []
    else
      var rest := FreshFrom(items, existing, i + 1);
      match items[i]
      case Some(c) => if ClaimTitle(c) in existing then rest else [c] + rest
      case None => rest
  }

  /** When every item from `i` on is falsy or on disk, nothing is left. */
  lemma {:induction false} FreshFromNone(items: seq<Option<Candidate>>, existing: set<string>, i: nat)
    requires i <= |items|
    requires forall k :: i <= k < |items| && items[k].Some? ==> ClaimTitle(items[k].value) in existing
    ensures FreshFrom(items, existing, i) == []
    decreases |items| - i
  {
    if i < |items| {
      FreshFromNone(items, existing, i + 1);
    }
  }

  /** The kept candidates are exactly the items from `i` on that are not falsy and not on disk. */
  lemma {:induction false} FreshFromMembers(items: seq<Option<Candidate>>, existing: set<string>, i: nat, c: Candidate)
    requires i <= |items|
    ensures c in FreshFrom(items, existing, i) <==> (exists k | i <= k < |items| :: items[k] == Some(c)) && ClaimTitle(c) !in existing
    decreases |items| - i
  {
    if i < |items| {
      FreshFromMembers(items, existing, i + 1, c);
    }
  }

  /**
   * The playlist branch's selection loop from item `i` on: each item that
   * is neither falsy nor on disk is claimed, and the granted ones are
   * selected. Returns the registry afterwards and the selection.
   */
  function PlaylistSelect(items: seq<Option<Claimable>>, existing: set<string>, i: nat, claims: ClaimMap): (r: (ClaimMap, seq<Claimable>))
    requires i <= |items|
    decreases |items| - i
  {
    if i == |items| then (claims, [])
    else
      match items[i]
      case None => PlaylistSelect(items, existing, i + 1, claims)
      case Some(x) =>
        if x.title in existing then PlaylistSelect(items, existing, i + 1, claims)
        else
          var rest := PlaylistSelect(items, existing, i + 1, AfterClaim(claims, x.scope, x.title));
          (rest.0, if Grants(claims, x.scope, x.title) then [x] + rest.1 else rest.1)
  }

  /** The playlist branch's download loop from position `i`: every selected candidate is tried; no early exit. */
  function DownloadAll(e: Entry, plan: seq<Claimable>, i: nat, outcomes: seq<bool>, log: Log): (r: (Log, seq<Attempt>))
    requires i <= |plan|
    ensures |r.1| == |plan| - i
    decreases |plan| - i
  {
    if i == |plan| then (log, [])
    else
      var ok := Outcome(outcomes, i);
      var rest := DownloadAll(e, plan, i + 1, outcomes, if ok then Record(log, e.lineNum, ShownTitle(plan[i].candidate)) else log);
      (rest.0, [Attempt(plan[i], ok)] + rest.1)
  }

  /** The search branch's plan: the ranked unseen results, only the best one for a specific song. */
  function SearchPlan(e: Entry, unseen: seq<Candidate>): seq<Candidate> {
    var ranked := Rank(unseen);
    if e.specific && |ranked| > 1 then ranked[..1] else ranked
  }

  /**
   * The search branch's loop from position `i`: claim each candidate, try
   * the granted ones, record successes; a specific song stops after its
   * first success. A failed download keeps its claim.
   */
  function ClaimLoop(e: Entry, plan: seq<Claimable>, i: nat, outcomes: seq<bool>, claims: ClaimMap, log: Log): Effect
    requires i <= |plan|
    decreases |plan| - i
  {
    if i == |plan| then Effect(claims, log, [])
    else
      var x := plan[i];
      if !Grants(claims, x.scope, x.title) then ClaimLoop(e, plan, i + 1, outcomes, claims, log)
      else
        var claims' := AfterClaim(claims, x.scope, x.title);
        if Outcome(outcomes, i) then
          var log' := Record(log, e.lineNum, ShownTitle(x.candidate));
          if e.specific then Effect(claims', log', [Attempt(x, true)])
          else
            var rest := ClaimLoop(e, plan, i + 1, outcomes, claims', log');
            Effect(rest.claims, rest.log, [Attempt(x, true)] + rest.attempts)
        else
          var rest := ClaimLoop(e, plan, i + 1, outcomes, claims', log);
          Effect(rest.claims, rest.log, [Attempt(x, false)] + rest.attempts)
  }

  /** The items a non-playlist result offers. */
  function SearchItems(info: Resolved): seq<Option<Candidate>> {
    match info
    case Listing(items) => items
    case Video(c) => [Some(c)]
    case _ => []
  }

  /** The registry and log after the playlist branch over `items`. */
  function PlaylistEffect(e: Entry, items: seq<Option<Candidate>>, existing: set<string>, claims: ClaimMap, log: Log, outcomes: seq<bool>): Effect {
    var selection := PlaylistSelect(TagItems(e, items), existing, 0, claims);
    var downloads := DownloadAll(e, Tag(e, Rank(Candidates(selection.1))), 0, outcomes, log);
    Effect(selection.0, downloads.0, downloads.1)
  }

  /** The registry and log after the search branch over `items`. */
  function SearchEffect(e: Entry, items: seq<Option<Candidate>>, existing: set<string>, claims: ClaimMap, log: Log, outcomes: seq<bool>): Effect {
    var unseen := FreshFrom(items, existing, 0);
    if unseen == [] then Effect(claims, log, [])
    else ClaimLoop(e, Tag(e, SearchPlan(e, unseen)), 0, outcomes, claims, log)
  }

  /** What the job does, given what the resolver returned for its query. */
  function Process(e: Entry, info: Resolved, existing: set<string>, claims: ClaimMap, log: Log, outcomes: seq<bool>): Effect {
    match info
    case Playlist(_, items) => PlaylistEffect(e, items, existing, claims, log, outcomes)
    case Listing(items) => SearchEffect(e, items, existing, claims, log, outcomes)
    case Video(c) => SearchEffect(e, [Some(c)], existing, claims, log, outcomes)
    case _ => Effect(claims, log, [])
  }

  // ---------------------------------------------------------------------
  // Properties of the job
  // ---------------------------------------------------------------------

  /** Registry `c1` extends `c0`: nothing claimed in `c0` is missing from `c1`. */
  ghost predicate Grown(c0: ClaimMap, c1: ClaimMap) {
    forall s :: Claimed(c0, s) <= Claimed(c1, s)
  }

  /** Every title claimed in `c1` but not in `c0` is off the disk. */
  ghost predicate NewClaimsFresh(c0: ClaimMap, c1: ClaimMap, existing: set<string>) {
    forall s, t :: t in Claimed(c1, s) && t !in Claimed(c0, s) ==> t !in existing
  }

  /** The log gained exactly `titles` at `line`, in order, and nothing elsewhere. */
  ghost predicate LoggedAt(log0: Log, log1: Log, line: int, titles: seq<string>) {
    && Downloaded(log1, line) == Downloaded(log0, line) + titles
    && forall other :: other != line ==> Downloaded(log1, other) == Downloaded(log0, other)
  }

  /** The (scope, title) pair a candidate is claimed under. */
  function ClaimOf(x: Claimable): Request {
    Request(x.scope, x.title)
  }

  /** The candidate's title is off the disk, was unclaimed under its scope in `c0` and is claimed in `c1`. */
  predicate ItemClaimed(c0: ClaimMap, c1: ClaimMap, existing: set<string>, x: Claimable) {
    && x.title !in existing
    && x.title !in Claimed(c0, x.scope)
    && x.title in Claimed(c1, x.scope)
  }

  /** No two candidates of `xs` share a claim. */
  predicate ClaimsDistinct(xs: seq<Claimable>) {
    forall j, k :: 0 <= j < k < |xs| ==> ClaimOf(xs[j]) != ClaimOf(xs[k])
  }

  /** Every attempt was claimed by this job, and no two attempts share a claim. */
  predicate AttemptsClaimed(c0: ClaimMap, c1: ClaimMap, existing: set<string>, attempts: seq<Attempt>) {
    && (forall k :: 0 <= k < |attempts| ==> ItemClaimed(c0, c1, existing, attempts[k].item))
    && (forall j, k :: 0 <= j < k < |attempts| ==> ClaimOf(attempts[j].item) != ClaimOf(attempts[k].item))
  }

  /** Every attempt was claimed under its candidate's own scope and title for this entry. */
  predicate AttemptsTagged(e: Entry, attempts: seq<Attempt>) {
    forall k :: 0 <= k < |attempts| ==> attempts[k].item == Tagged(e, attempts[k].item.candidate)
  }

  /** Every candidate from `i` on is claimed under the line `line`. */
  predicate LineScoped(plan: seq<Claimable>, i: nat, line: int) {
    forall k :: i <= k < |plan| ==> plan[k].scope == LineScope(line)
  }

  /** The titles of the successful attempts, as the log records them. */
  function Successes(attempts: seq<Attempt>): (titles: seq<string>)
    ensures |titles| <= |attempts|
  {
    if attempts == [] then []
    else (if attempts[0].ok then [ShownTitle(attempts[0].item.candidate)] else []) + Successes(attempts[1..])
  }

  lemma SuccessesCons(a: Attempt, rest: seq<Attempt>)
    ensures Successes([a] + rest) == (if a.ok then [ShownTitle(a.item.candidate)] else []) + Successes(rest)
  {
    assert ([a] + rest)[1..] == rest;
  }

  lemma GrownTrans(c0: ClaimMap, c1: ClaimMap, c2: ClaimMap)
    requires Grown(c0, c1) && Grown(c1, c2)
    ensures Grown(c0, c2)
  {
    forall s ensures Claimed(c0, s) <= Claimed(c2, s) {
      assert Claimed(c0, s) <= Claimed(c1, s);
    }
  }

  lemma LoggedAtTrans(l0: Log, l1: Log, l2: Log, line: int, a: seq<string>, b: seq<string>)
    requires LoggedAt(l0, l1, line, a) && LoggedAt(l1, l2, line, b)
    ensures LoggedAt(l0, l2, line, a + b)
  {
    forall other | other != line ensures Downloaded(l2, other) == Downloaded(l0, other) {
      assert Downloaded(l1, other) == Downloaded(l0, other);
    }
  }

  /** A claim step: the registry grows, new claims are the granted title, line scopes stay capped. */
  lemma ClaimStep(m: ClaimMap, s: Scope, t: string, existing: set<string>)
    requires t !in existing
    ensures Grown(m, AfterClaim(m, s, t)) && NewClaimsFresh(m, AfterClaim(m, s, t), existing)
    ensures LineCapped(m) ==> LineCapped(AfterClaim(m, s, t))
    ensures Grants(m, s, t) ==> t !in Claimed(m, s) && t in Claimed(AfterClaim(m, s, t), s)
  {
    AfterClaimEffect(m, s, t);
    if LineCapped(m) {
      AfterClaimCapped(m, s, t);
    }
    forall s' ensures Claimed(m, s') <= Claimed(AfterClaim(m, s, t), s') {
      AfterClaimGrows(m, s, t, s');
    }
  }

  lemma NewClaimsFreshTrans(c0: ClaimMap, c1: ClaimMap, c2: ClaimMap, existing: set<string>)
    requires NewClaimsFresh(c0, c1, existing) && NewClaimsFresh(c1, c2, existing) && Grown(c0, c1)
    ensures NewClaimsFresh(c0, c2, existing)
  {
    forall s, t | t in Claimed(c2, s) && t !in Claimed(c0, s) ensures t !in existing {
      if t !in Claimed(c1, s) {
        assert t in Claimed(c2, s) && t !in Claimed(c1, s);
      } else {
        assert t in Claimed(c1, s) && t !in Claimed(c0, s);
      }
    }
  }

  /** A claimed candidate followed by candidates claimed later, each claim distinct: all were claimed from `c0` to `c2`. */
  lemma ItemsCons(c0: ClaimMap, c1: ClaimMap, c2: ClaimMap, existing: set<string>, x: Claimable, rest: seq<Claimable>)
    requires ItemClaimed(c0, c1, existing, x)
    requires Grown(c0, c1) && Grown(c1, c2)
    requires forall k :: 0 <= k < |rest| ==> ItemClaimed(c1, c2, existing, rest[k])
    requires ClaimsDistinct(rest)
    ensures forall k :: 0 <= k < |[x] + rest| ==> ItemClaimed(c0, c2, existing, ([x] + rest)[k])
    ensures ClaimsDistinct([x] + rest)
  {
    var all := [x] + rest;
    forall j, k | 0 <= j < k < |all| ensures ClaimOf(all[j]) != ClaimOf(all[k]) {
      if j == 0 {
        assert all[k] == rest[k - 1];
        assert ItemClaimed(c1, c2, existing, rest[k - 1]);
      } else {
        assert all[j] == rest[j - 1] && all[k] == rest[k - 1];
      }
    }
    forall k | 0 <= k < |all| ensures ItemClaimed(c0, c2, existing, all[k]) {
      if k == 0 {
        assert Claimed(c1, x.scope) <= Claimed(c2, x.scope);
      } else {
        assert all[k] == rest[k - 1];
        assert ItemClaimed(c1, c2, existing, rest[k - 1]);
        assert Claimed(c0, rest[k - 1].scope) <= Claimed(c1, rest[k - 1].scope);
      }
    }
  }

  /** The items of a sequence of attempts. */
  function Items(attempts: seq<Attempt>): (xs: seq<Claimable>)
    ensures |xs| == |attempts|
    ensures forall k :: 0 <= k < |attempts| ==> xs[k] == attempts[k].item
  {
    seq(|attempts|, k requires 0 <= k < |attempts| => attempts[k].item)
  }

  lemma AttemptsClaimedItems(c0: ClaimMap, c1: ClaimMap, existing: set<string>, attempts: seq<Attempt>)
    requires (forall k :: 0 <= k < |attempts| ==> ItemClaimed(c0, c1, existing, Items(attempts)[k])) && ClaimsDistinct(Items(attempts))
    ensures AttemptsClaimed(c0, c1, existing, attempts)
  {
    forall j, k | 0 <= j < k < |attempts| ensures ClaimOf(attempts[j].item) != ClaimOf(attempts[k].item) {
      assert ClaimOf(Items(attempts)[j]) != ClaimOf(Items(attempts)[k]);
    }
  }

  // The search branch's loop

  /** The registry after the search loop grows from the one before, with only titles off the disk, keeping lines capped. */
  lemma {:induction false} ClaimLoopClaims(e: Entry, plan: seq<Claimable>, i: nat, outcomes: seq<bool>, claims: ClaimMap, log: Log, existing: set<string>)
    requires i <= |plan|
    requires forall k :: i <= k < |plan| ==> plan[k].title !in existing
    ensures var r := ClaimLoop(e, plan, i, outcomes, claims, log);
      Grown(claims, r.claims) && NewClaimsFresh(claims, r.claims, existing) && (LineCapped(claims) ==> LineCapped(r.claims))
    decreases |plan| - i
  {
    if i < |plan| {
      var x := plan[i];
      if !Grants(claims, x.scope, x.title) {
        ClaimLoopClaims(e, plan, i + 1, outcomes, claims, log, existing);
      } else {
        var claims' := AfterClaim(claims, x.scope, x.title);
        ClaimStep(claims, x.scope, x.title, existing);
        var ok := Outcome(outcomes, i);
        var log' := if ok then Record(log, e.lineNum, ShownTitle(x.candidate)) else log;
        if !(ok && e.specific) {
          ClaimLoopClaims(e, plan, i + 1, outcomes, claims', log', existing);
          var rest := ClaimLoop(e, plan, i + 1, outcomes, claims', log');
          GrownTrans(claims, claims', rest.claims);
          NewClaimsFreshTrans(claims, claims', rest.claims, existing);
        }
      }
    }
  }

  /** The search loop's log gains exactly its successful titles, at the entry's line. */
  lemma {:induction false} ClaimLoopLog(e: Entry, plan: seq<Claimable>, i: nat, outcomes: seq<bool>, claims: ClaimMap, log: Log)
    requires i <= |plan|
    ensures var r := ClaimLoop(e, plan, i, outcomes, claims, log);
      LoggedAt(log, r.log, e.lineNum, Successes(r.attempts))
    decreases |plan| - i
  {
    if i < |plan| {
      var x := plan[i];
      if !Grants(claims, x.scope, x.title) {
        ClaimLoopLog(e, plan, i + 1, outcomes, claims, log);
      } else {
        var claims' := AfterClaim(claims, x.scope, x.title);
        var ok := Outcome(outcomes, i);
        var log' := if ok then Record(log, e.lineNum, ShownTitle(x.candidate)) else log;
        var a := Attempt(x, ok);
        SuccessesCons(a, []);
        if !(ok && e.specific) {
          ClaimLoopLog(e, plan, i + 1, outcomes, claims', log');
          var rest := ClaimLoop(e, plan, i + 1, outcomes, claims', log');
          SuccessesCons(a, rest.attempts);
          LoggedAtTrans(log, log', rest.log, e.lineNum, Successes([a]), Successes(rest.attempts));
        }
      }
    }
  }

  /** An attempt claimed by the job in front of attempts claimed after it: all claimed, no claim twice, all from the plan. */
  lemma AttemptsCons(c0: ClaimMap, c1: ClaimMap, c2: ClaimMap, existing: set<string>, plan: seq<Claimable>, a: Attempt, rest: seq<Attempt>)
    requires a.item in plan && ItemClaimed(c0, c1, existing, a.item) && Grown(c0, c1) && Grown(c1, c2)
    requires forall k :: 0 <= k < |rest| ==> ItemClaimed(c1, c2, existing, Items(rest)[k]) && rest[k].item in plan
    requires ClaimsDistinct(Items(rest))
    ensures var all := [a] + rest;
      && (forall k :: 0 <= k < |all| ==> ItemClaimed(c0, c2, existing, Items(all)[k]) && all[k].item in plan)
      && ClaimsDistinct(Items(all))
  {
    var all := [a] + rest;
    assert Items(all) == [a.item] + Items(rest);
    ItemsCons(c0, c1, c2, existing, a.item, Items(rest));
    forall k | 1 <= k < |all| ensures all[k].item in plan {
      assert all[k] == rest[k - 1];
    }
  }

  /** Every download the search loop tries is one of its candidates, claimed by it, each claim once. */
  lemma {:induction false} ClaimLoopAttempts(e: Entry, plan: seq<Claimable>, i: nat, outcomes: seq<bool>, claims: ClaimMap, log: Log, existing: set<string>)
    requires i <= |plan|
    requires forall k :: i <= k < |plan| ==> plan[k].title !in existing
    ensures var r := ClaimLoop(e, plan, i, outcomes, claims, log);
      && (forall k :: 0 <= k < |r.attempts| ==> ItemClaimed(claims, r.claims, existing, Items(r.attempts)[k]) && r.attempts[k].item in plan)
      && ClaimsDistinct(Items(r.attempts))
    decreases |plan| - i
  {
    if i < |plan| {
      var x := plan[i];
      if !Grants(claims, x.scope, x.title) {
        ClaimLoopAttempts(e, plan, i + 1, outcomes, claims, log, existing);
      } else {
        var claims' := AfterClaim(claims, x.scope, x.title);
        ClaimStep(claims, x.scope, x.title, existing);
        var ok := Outcome(outcomes, i);
        var log' := if ok then Record(log, e.lineNum, ShownTitle(x.candidate)) else log;
        var a := Attempt(x, ok);
        if !(ok && e.specific) {
          ClaimLoopAttempts(e, plan, i + 1, outcomes, claims', log', existing);
          ClaimLoopClaims(e, plan, i + 1, outcomes, claims', log', existing);
          var rest := ClaimLoop(e, plan, i + 1, outcomes, claims', log');
          assert ClaimLoop(e, plan, i, outcomes, claims, log) == Effect(rest.claims, rest.log, [a] + rest.attempts);
          AttemptsCons(claims, claims', rest.claims, existing, plan, a, rest.attempts);
        } else {
          assert ClaimLoop(e, plan, i, outcomes, claims, log) == Effect(claims', log', [a]);
          assert Items([a]) == [x];
        }
      }
    }
  }

  /** Once a specific song's line holds a title, the rest of its loop tries nothing. */
  lemma {:induction false} ClaimLoopSpecificStops(e: Entry, plan: seq<Claimable>, i: nat, outcomes: seq<bool>, claims: ClaimMap, log: Log)
    requires i <= |plan| && LineScoped(plan, i, e.lineNum) && Claimed(claims, LineScope(e.lineNum)) != {}
    ensures ClaimLoop(e, plan, i, outcomes, claims, log).attempts == []
    decreases |plan| - i
  {
    if i < |plan| {
      ClaimLoopSpecificStops(e, plan, i + 1, outcomes, claims, log);
    }
  }

  /** A specific song's search loop, all of whose candidates are claimed under its line, tries at most one download. */
  lemma {:induction false} ClaimLoopSpecific(e: Entry, plan: seq<Claimable>, i: nat, outcomes: seq<bool>, claims: ClaimMap, log: Log)
    requires i <= |plan| && e.specific && LineScoped(plan, i, e.lineNum)
    ensures |ClaimLoop(e, plan, i, outcomes, claims, log).attempts| <= 1
    decreases |plan| - i
  {
    if i < |plan| {
      var x := plan[i];
      if !Grants(claims, x.scope, x.title) {
        ClaimLoopSpecific(e, plan, i + 1, outcomes, claims, log);
      } else if !Outcome(outcomes, i) {
        var claims' := AfterClaim(claims, x.scope, x.title);
        AfterClaimEffect(claims, x.scope, x.title);
        ClaimLoopSpecificStops(e, plan, i + 1, outcomes, claims', log);
      }
    }
  }

  // The playlist branch's loops

  /** The registry after the playlist selection grows from the one before, with only titles off the disk, keeping lines capped. */
  lemma {:induction false} PlaylistSelectClaims(items: seq<Option<Claimable>>, existing: set<string>, i: nat, claims: ClaimMap)
    requires i <= |items|
    ensures var r := PlaylistSelect(items, existing, i, claims);
      Grown(claims, r.0) && NewClaimsFresh(claims, r.0, existing) && (LineCapped(claims) ==> LineCapped(r.0))
    decreases |items| - i
  {
    if i < |items| {
      if items[i].None? || items[i].value.title in existing {
        PlaylistSelectClaims(items, existing, i + 1, claims);
      } else {
        var x := items[i].value;
        var claims' := AfterClaim(claims, x.scope, x.title);
        ClaimStep(claims, x.scope, x.title, existing);
        PlaylistSelectClaims(items, existing, i + 1, claims');
        var rest := PlaylistSelect(items, existing, i + 1, claims');
        GrownTrans(claims, claims', rest.0);
        NewClaimsFreshTrans(claims, claims', rest.0, existing);
      }
    }
  }

  /** Every selected candidate is one of the items, was claimed by the selection, and no two share a claim. */
  lemma {:induction false} PlaylistSelectClaimed(items: seq<Option<Claimable>>, existing: set<string>, i: nat, claims: ClaimMap)
    requires i <= |items|
    ensures var r := PlaylistSelect(items, existing, i, claims);
      && (forall k :: 0 <= k < |r.1| ==> ItemClaimed(claims, r.0, existing, r.1[k]) && Some(r.1[k]) in items)
      && ClaimsDistinct(r.1)
    decreases |items| - i
  {
    if i < |items| {
      if items[i].None? || items[i].value.title in existing {
        PlaylistSelectClaimed(items, existing, i + 1, claims);
      } else {
        var x := items[i].value;
        var claims' := AfterClaim(claims, x.scope, x.title);
        ClaimStep(claims, x.scope, x.title, existing);
        PlaylistSelectClaimed(items, existing, i + 1, claims');
        PlaylistSelectClaims(items, existing, i + 1, claims');
        var rest := PlaylistSelect(items, existing, i + 1, claims');
        if Grants(claims, x.scope, x.title) {
          ItemsCons(claims, claims', rest.0, existing, x, rest.1);
          forall k | 1 <= k < |rest.1| + 1 ensures Some(([x] + rest.1)[k]) in items {
            assert ([x] + rest.1)[k] == rest.1[k - 1];
          }
        } else {
          forall k | 0 <= k < |rest.1| ensures ItemClaimed(claims, rest.0, existing, rest.1[k]) {
            assert ItemClaimed(claims', rest.0, existing, rest.1[k]);
          }
        }
      }
    }
  }

  /** A selection whose items are all claimed under one line picks at most one, and none once that line holds a title. */
  lemma {:induction false} PlaylistSelectSpecific(items: seq<Option<Claimable>>, existing: set<string>, i: nat, claims: ClaimMap, line: int)
    requires i <= |items|
    requires forall k :: i <= k < |items| && items[k].Some? ==> items[k].value.scope == LineScope(line)
    ensures var r := PlaylistSelect(items, existing, i, claims);
      |r.1| <= 1 && (Claimed(claims, LineScope(line)) != {} ==> r.1 == [])
    decreases |items| - i
  {
    if i < |items| {
      if items[i].None? || items[i].value.title in existing {
        PlaylistSelectSpecific(items, existing, i + 1, claims, line);
      } else {
        var x := items[i].value;
        var claims' := AfterClaim(claims, x.scope, x.title);
        AfterClaimEffect(claims, x.scope, x.title);
        AfterClaimGrows(claims, x.scope, x.title, x.scope);
        PlaylistSelectSpecific(items, existing, i + 1, claims', line);
      }
    }
  }

  /** The playlist download loop's log gains exactly its successful titles, at the entry's line. */
  lemma {:induction false} DownloadAllLog(e: Entry, plan: seq<Claimable>, i: nat, outcomes: seq<bool>, log: Log)
    requires i <= |plan|
    ensures var r := DownloadAll(e, plan, i, outcomes, log);
      LoggedAt(log, r.0, e.lineNum, Successes(r.1))
    decreases |plan| - i
  {
    if i < |plan| {
      var x := plan[i];
      var ok := Outcome(outcomes, i);
      var log' := if ok then Record(log, e.lineNum, ShownTitle(x.candidate)) else log;
      DownloadAllLog(e, plan, i + 1, outcomes, log');
      var rest := DownloadAll(e, plan, i + 1, outcomes, log');
      var a := Attempt(x, ok);
      SuccessesCons(a, []);
      SuccessesCons(a, rest.1);
      LoggedAtTrans(log, log', rest.0, e.lineNum, Successes([a]), Successes(rest.1));
    }
  }

  /** The playlist download loop tries the plan's candidates in order, all of them. */
  lemma {:induction false} DownloadAllTrace(e: Entry, plan: seq<Claimable>, i: nat, outcomes: seq<bool>, log: Log)
    requires i <= |plan|
    ensures Items(DownloadAll(e, plan, i, outcomes, log).1) == plan[i..]
    decreases |plan| - i
  {
    if i < |plan| {
      var x := plan[i];
      var ok := Outcome(outcomes, i);
      var log' := if ok then Record(log, e.lineNum, ShownTitle(x.candidate)) else log;
      DownloadAllTrace(e, plan, i + 1, outcomes, log');
      var rest := DownloadAll(e, plan, i + 1, outcomes, log');
      var all := [Attempt(x, ok)] + rest.1;
      assert Items(all) == [x] + Items(rest.1);
    }
  }

  // Joining the loops with tagging and ranking

  lemma DistinctOnce<T>(xs: seq<T>, x: T)
    requires forall j, k :: 0 <= j < k < |xs| ==> xs[j] != xs[k]
    ensures multiset(xs)[x] <= 1
    decreases |xs|
  {
    if xs != [] {
      assert xs == [xs[0]] + xs[1..];
      DistinctOnce(xs[1..], x);
      if xs[0] == x {
        assert x !in xs[1..] by {
          forall k | 0 <= k < |xs[1..]| ensures xs[1..][k] != x {
            assert xs[1..][k] == xs[k + 1];
          }
        }
      }
    }
  }

  lemma TwoIndicesCount<T>(xs: seq<T>, j: nat, k: nat)
    requires j < k < |xs| && xs[j] == xs[k]
    ensures multiset(xs)[xs[j]] >= 2
  {
    assert xs == xs[..k] + [xs[k]] + xs[k + 1..];
    assert xs[..k][j] == xs[j];
    assert xs[j] in multiset(xs[..k]);
  }

  /** The selection's members are tags of the playlist's items. */
  lemma SelectionTagged(e: Entry, items: seq<Option<Candidate>>, sel: seq<Claimable>)
    requires forall k :: 0 <= k < |sel| ==> Some(sel[k]) in TagItems(e, items)
    ensures forall k :: 0 <= k < |sel| ==> sel[k] == Tagged(e, sel[k].candidate)
  {
    var tagged := TagItems(e, items);
    TagItemsAt(e, items);
    forall k | 0 <= k < |sel| ensures sel[k] == Tagged(e, sel[k].candidate) {
      var q :| 0 <= q < |tagged| && tagged[q] == Some(sel[k]);
    }
  }

  /** Ranking the candidates of a tagged selection and tagging them again yields members of the selection, without a repeated claim. */
  lemma Retag(e: Entry, sel: seq<Claimable>, ranked: seq<Candidate>)
    requires forall k :: 0 <= k < |sel| ==> sel[k] == Tagged(e, sel[k].candidate)
    requires ClaimsDistinct(sel)
    requires multiset(ranked) <= multiset(Candidates(sel))
    ensures forall k :: 0 <= k < |ranked| ==> Tag(e, ranked)[k] in sel
    ensures ClaimsDistinct(Tag(e, ranked))
  {
    var cs := Candidates(sel);
    var plan := Tag(e, ranked);
    TagAt(e, ranked);
    forall j, k | 0 <= j < k < |cs| ensures cs[j] != cs[k] {
      assert ClaimOf(sel[j]) != ClaimOf(sel[k]);
    }
    forall k | 0 <= k < |ranked| ensures exists p :: 0 <= p < |sel| && plan[k] == sel[p] {
      assert ranked[k] in multiset(cs);
      var p :| 0 <= p < |cs| && cs[p] == ranked[k];
      assert plan[k] == sel[p];
    }
    forall j, k | 0 <= j < k < |plan| ensures ClaimOf(plan[j]) != ClaimOf(plan[k]) {
      var p :| 0 <= p < |sel| && plan[j] == sel[p];
      var q :| 0 <= q < |sel| && plan[k] == sel[q];
      if p == q {
        assert ranked[j] == ranked[k];
        TwoIndicesCount(ranked, j, k);
        DistinctOnce(cs, ranked[j]);
      } else if p < q {
        assert ClaimOf(sel[p]) != ClaimOf(sel[q]);
      } else {
        assert ClaimOf(sel[q]) != ClaimOf(sel[p]);
      }
    }
  }

  /** For a specific song every tag is claimed under the entry's line. */
  lemma TagItemsLine(e: Entry, items: seq<Option<Candidate>>)
    requires e.specific
    ensures var xs := TagItems(e, items);
      forall k :: 0 <= k < |xs| && xs[k].Some? ==> xs[k].value.scope == LineScope(e.lineNum)
  {
    TagItemsAt(e, items);
  }

  /** For a specific song every tag is claimed under the entry's line. */
  lemma TagLine(e: Entry, cs: seq<Candidate>)
    requires e.specific
    ensures LineScoped(Tag(e, cs), 0, e.lineNum)
  {
    TagAt(e, cs);
  }

  /** A tag carries the candidate's claim title. */
  lemma TagTitles(e: Entry, cs: seq<Candidate>)
    ensures forall k :: 0 <= k < |cs| ==> Tag(e, cs)[k].title == ClaimTitle(cs[k])
  {
    TagAt(e, cs);
  }

  /** Every member of a tagged sequence is the tag of its own candidate. */
  lemma TagTagged(e: Entry, cs: seq<Candidate>)
    ensures forall x :: x in Tag(e, cs) ==> x == Tagged(e, x.candidate)
  {
    TagAt(e, cs);
    forall x | x in Tag(e, cs) ensures x == Tagged(e, x.candidate) {
      var k :| 0 <= k < |cs| && Tag(e, cs)[k] == x;
    }
  }

  /** The search branch's plan holds only candidates off the disk. */
  lemma SearchPlanUnseen(e: Entry, unseen: seq<Candidate>, existing: set<string>)
    requires forall k :: 0 <= k < |unseen| ==> ClaimTitle(unseen[k]) !in existing
    ensures var plan := SearchPlan(e, unseen);
      forall k :: 0 <= k < |plan| ==> ClaimTitle(plan[k]) !in existing
  {
    var plan := SearchPlan(e, unseen);
    RankSubMultiset(unseen);
    forall k | 0 <= k < |plan| ensures ClaimTitle(plan[k]) !in existing {
      assert plan[k] in multiset(Rank(unseen));
      var p :| 0 <= p < |unseen| && unseen[p] == plan[k];
    }
  }

  /** A specific song's search plan holds one candidate at most. */
  lemma SearchPlanSpecific(e: Entry, unseen: seq<Candidate>)
    requires e.specific
    ensures |SearchPlan(e, unseen)| <= 1
  {
  }

  // Whole branches

  /** The playlist branch's claims grow, take only titles off the disk and keep lines capped. */
  lemma PlaylistClaims(e: Entry, items: seq<Option<Candidate>>, existing: set<string>, claims: ClaimMap, log: Log, outcomes: seq<bool>)
    ensures var r := PlaylistEffect(e, items, existing, claims, log, outcomes);
      Grown(claims, r.claims) && NewClaimsFresh(claims, r.claims, existing) && (LineCapped(claims) ==> LineCapped(r.claims))
  {
    PlaylistSelectClaims(TagItems(e, items), existing, 0, claims);
  }

  /** The search branch's claims grow, take only titles off the disk and keep lines capped. */
  lemma SearchClaims(e: Entry, items: seq<Option<Candidate>>, existing: set<string>, claims: ClaimMap, log: Log, outcomes: seq<bool>)
    ensures var r := SearchEffect(e, items, existing, claims, log, outcomes);
      Grown(claims, r.claims) && NewClaimsFresh(claims, r.claims, existing) && (LineCapped(claims) ==> LineCapped(r.claims))
  {
    var unseen := FreshFrom(items, existing, 0);
    if unseen != [] {
      var ranked := SearchPlan(e, unseen);
      SearchPlanUnseen(e, unseen, existing);
      TagTitles(e, ranked);
      ClaimLoopClaims(e, Tag(e, ranked), 0, outcomes, claims, log, existing);
    }
  }

  /** The playlist branch's attempts: each claimed by it under its own scope and title, no claim twice, one at most for a song. */
  lemma PlaylistAttempts(e: Entry, items: seq<Option<Candidate>>, existing: set<string>, claims: ClaimMap, log: Log, outcomes: seq<bool>)
    ensures var r := PlaylistEffect(e, items, existing, claims, log, outcomes);
      AttemptsClaimed(claims, r.claims, existing, r.attempts) && AttemptsTagged(e, r.attempts) && (e.specific ==> |r.attempts| <= 1)
  {
    var sel := PlaylistSelect(TagItems(e, items), existing, 0, claims);
    PlaylistSelectClaimed(TagItems(e, items), existing, 0, claims);
    SelectionTagged(e, items, sel.1);
    var ranked := Rank(Candidates(sel.1));
    RankSubMultiset(Candidates(sel.1));
    Retag(e, sel.1, ranked);
    var plan := Tag(e, ranked);
    TagTagged(e, ranked);
    DownloadAllTrace(e, plan, 0, outcomes, log);
    var r := DownloadAll(e, plan, 0, outcomes, log);
    assert Items(r.1) == plan;
    forall k | 0 <= k < |r.1| ensures ItemClaimed(claims, sel.0, existing, Items(r.1)[k]) {
      var p :| 0 <= p < |sel.1| && sel.1[p] == plan[k];
    }
    AttemptsClaimedItems(claims, sel.0, existing, r.1);
    if e.specific {
      TagItemsLine(e, items);
      PlaylistSelectSpecific(TagItems(e, items), existing, 0, claims, e.lineNum);
      assert |ranked| == |multiset(ranked)| <= |multiset(Candidates(sel.1))| == |sel.1|;
    }
  }

  /** The search branch's attempts: each claimed by it under its own scope and title, no claim twice, one at most for a song. */
  lemma SearchAttempts(e: Entry, items: seq<Option<Candidate>>, existing: set<string>, claims: ClaimMap, log: Log, outcomes: seq<bool>)
    ensures var r := SearchEffect(e, items, existing, claims, log, outcomes);
      AttemptsClaimed(claims, r.claims, existing, r.attempts) && AttemptsTagged(e, r.attempts) && (e.specific ==> |r.attempts| <= 1)
  {
    var unseen := FreshFrom(items, existing, 0);
    if unseen != [] {
      var ranked := SearchPlan(e, unseen);
      var plan := Tag(e, ranked);
      SearchPlanUnseen(e, unseen, existing);
      TagTitles(e, ranked);
      TagTagged(e, ranked);
      ClaimLoopAttempts(e, plan, 0, outcomes, claims, log, existing);
      var r := ClaimLoop(e, plan, 0, outcomes, claims, log);
      AttemptsClaimedItems(claims, r.claims, existing, r.attempts);
      if e.specific {
        TagLine(e, ranked);
        ClaimLoopSpecific(e, plan, 0, outcomes, claims, log);
      }
    }
  }

  /**
   * Claims made by one job, whatever the resolver returns and whichever
   * downloads fail: they only grow (a failed download keeps its claim),
   * never take a title already on disk, and keep every line at one title.
   */
  lemma ProcessClaims(e: Entry, info: Resolved, existing: set<string>, claims: ClaimMap, log: Log, outcomes: seq<bool>)
    ensures var r := Process(e, info, existing, claims, log, outcomes);
      Grown(claims, r.claims) && NewClaimsFresh(claims, r.claims, existing) && (LineCapped(claims) ==> LineCapped(r.claims))
  {
    match info
    case Playlist(_, items) => PlaylistClaims(e, items, existing, claims, log, outcomes);
    case Listing(items) => SearchClaims(e, items, existing, claims, log, outcomes);
    case Video(c) => SearchClaims(e, [Some(c)], existing, claims, log, outcomes);
    case _ =>
  }

  /**
   * Downloads tried by one job: each for a title off the disk that this
   * job claimed under the candidate's own scope and title, no two for the
   * same claim; a specific song tries at most one.
   */
  lemma ProcessAttempts(e: Entry, info: Resolved, existing: set<string>, claims: ClaimMap, log: Log, outcomes: seq<bool>)
    ensures var r := Process(e, info, existing, claims, log, outcomes);
      AttemptsClaimed(claims, r.claims, existing, r.attempts) && AttemptsTagged(e, r.attempts)
        && (e.specific ==> |r.attempts| <= 1)
  {
    match info
    case Playlist(_, items) => PlaylistAttempts(e, items, existing, claims, log, outcomes);
    case Listing(items) => SearchAttempts(e, items, existing, claims, log, outcomes);
    case Video(c) => SearchAttempts(e, [Some(c)], existing, claims, log, outcomes);
    case _ =>
  }

  /** The log after one job: exactly the successful downloads' titles appended at the entry's line, in order, and nothing else. */
  lemma ProcessLog(e: Entry, info: Resolved, existing: set<string>, claims: ClaimMap, log: Log, outcomes: seq<bool>)
    ensures var r := Process(e, info, existing, claims, log, outcomes);
      LoggedAt(log, r.log, e.lineNum, Successes(r.attempts))
  {
    match info
    case Playlist(_, items) =>
      var sel := PlaylistSelect(TagItems(e, items), existing, 0, claims);
      DownloadAllLog(e, Tag(e, Rank(Candidates(sel.1))), 0, outcomes, log);
    case Listing(items) =>
      var unseen := FreshFrom(items, existing, 0);
      if unseen != [] {
        ClaimLoopLog(e, Tag(e, SearchPlan(e, unseen)), 0, outcomes, claims, log);
      }
    case Video(c) =>
      var unseen := FreshFrom([Some(c)], existing, 0);
      if unseen != [] {
        ClaimLoopLog(e, Tag(e, SearchPlan(e, unseen)), 0, outcomes, claims, log);
      }
    case _ =>
  }

  lemma {:induction false} PlaylistSelectNone(items: seq<Option<Claimable>>, existing: set<string>, i: nat, claims: ClaimMap)
    requires i <= |items|
    requires forall k :: i <= k < |items| && items[k].Some? ==> items[k].value.title in existing
    ensures PlaylistSelect(items, existing, i, claims) == (claims, [])
    decreases |items| - i
  {
    if i < |items| {
      PlaylistSelectNone(items, existing, i + 1, claims);
    }
  }

  /** The items a result offers, playlist or not. */
  function OfferedItems(info: Resolved): seq<Option<Candidate>> {
    if info.Playlist? then info.items else SearchItems(info)
  }

  /**
   * Running the job again once everything it offers is on disk changes
   * nothing: no claim, no download, no log entry.
   */
  lemma ProcessRerun(e: Entry, info: Resolved, existing: set<string>, claims: ClaimMap, log: Log, outcomes: seq<bool>)
    requires forall k :: 0 <= k < |OfferedItems(info)| && OfferedItems(info)[k].Some? ==> ClaimTitle(OfferedItems(info)[k].value) in existing
    ensures Process(e, info, existing, claims, log, outcomes) == Effect(claims, log, [])
  {
    var items := OfferedItems(info);
    if info.Playlist? {
      var tagged := TagItems(e, items);
      TagItemsAt(e, items);
      forall k | 0 <= k < |tagged| && tagged[k].Some? ensures tagged[k].value.title in existing {
        assert items[k].Some?;
      }
      PlaylistSelectNone(tagged, existing, 0, claims);
      assert Rank([]) == [];
    } else if info.Listing? || info.Video? {
      FreshFromNone(items, existing, 0);
    }
  }

  // ---------------------------------------------------------------------
  // The job, step by step
  // ---------------------------------------------------------------------

  /** The filtering loop of the search branch: keeps the items that are neither falsy nor on disk, in order. */
  method DropExisting(items: seq<Option<Candidate>>, existing: set<string>) returns (unseen: seq<Candidate>)
    ensures unseen == FreshFrom(items, existing, 0)
  {
    unseen := [];
    var i := 0;
    while i < |items|
      invariant 0 <= i <= |items|
      invariant unseen + FreshFrom(items, existing, i) == FreshFrom(items, existing, 0)
    {
      ghost var before := unseen;
      match items[i] {
        case None =>
        case Some(c) =>
          if ClaimTitle(c) !in existing {
            unseen := unseen + [c];
            assert before + ([c] + FreshFrom(items, existing, i + 1)) == unseen + FreshFrom(items, existing, i + 1);
          }
      }
      i := i + 1;
    }
    assert FreshFrom(items, existing, i) == [];
    assert unseen + [] == unseen;
  }

  /**
   * One pass of the playlist branch's selection loop: a falsy item or one
   * already on disk is passed over; otherwise its title and artist are
   * computed and the claim is made.
   */
  method OfferItem(e: Entry, items: seq<Option<Candidate>>, i: nat, existing: set<string>, reg: ClaimRegistry)
    returns (picked: Option<Claimable>)
    requires i < |items| && reg.Valid()
    modifies reg
    ensures reg.Valid()
    ensures var t := TagItems(e, items)[i];
      if t.None? || t.value.title in existing then picked == None && reg.claims == old(reg.claims)
      else
        var x := t.value;
        && picked == (if Grants(old(reg.claims), x.scope, x.title) then Some(x) else None)
        && reg.claims == AfterClaim(old(reg.claims), x.scope, x.title)
  {
    TagItemsAt(e, items);
    picked := None;
    match items[i] {
      case None =>
      case Some(c) =>
        var title := ClaimTitle(c);
        if title !in existing {
          var artist := ArtistOf(c);
          var scope := if e.specific then LineScope(e.lineNum) else ArtistScope(artist);
          var granted := reg.TryClaim(scope, title);
          if granted {
            picked := Some(Claimable(c, scope, title));
          }
        }
    }
  }

  /** The selection loop of the playlist branch: claims each item off the disk and keeps the granted ones. */
  method SelectFromPlaylist(e: Entry, items: seq<Option<Candidate>>, existing: set<string>, reg: ClaimRegistry)
    returns (selected: seq<Claimable>)
    requires reg.Valid()
    modifies reg
    ensures reg.Valid()
    ensures (reg.claims, selected) == PlaylistSelect(TagItems(e, items), existing, 0, old(reg.claims))
  {
    ghost var tagged := TagItems(e, items);
    ghost var goal := PlaylistSelect(tagged, existing, 0, reg.claims);
    selected := [];
    var i := 0;
    while i < |items|
      invariant 0 <= i <= |items| && reg.Valid()
      invariant PlaylistSelect(tagged, existing, i, reg.claims).0 == goal.0
      invariant selected + PlaylistSelect(tagged, existing, i, reg.claims).1 == goal.1
    {
      var picked := OfferItem(e, items, i, existing, reg);
      if picked.Some? {
        ghost var rest := PlaylistSelect(tagged, existing, i + 1, reg.claims).1;
        assert selected + ([picked.value] + rest) == (selected + [picked.value]) + rest;
        selected := selected + [picked.value];
      }
      i := i + 1;
    }
    assert selected + [] == selected;
  }

  /** The download loop of the playlist branch: tries every candidate, recording each success. */
  method DownloadEach(e: Entry, ranked: seq<Candidate>, outcomes: seq<bool>, tracker: DownloadTracker)
    modifies tracker
    ensures tracker.log == DownloadAll(e, Tag(e, ranked), 0, outcomes, old(tracker.log)).0
  {
    ghost var plan := Tag(e, ranked);
    ghost var goal := DownloadAll(e, plan, 0, outcomes, tracker.log);
    TagCandidates(e, ranked);
    var j := 0;
    while j < |ranked|
      invariant 0 <= j <= |ranked|
      invariant DownloadAll(e, plan, j, outcomes, tracker.log).0 == goal.0
    {
      assert plan[j].candidate == ranked[j];
      ghost var ok := Outcome(outcomes, j);
      assert DownloadAll(e, plan, j, outcomes, tracker.log).0
          == DownloadAll(e, plan, j + 1, outcomes, if ok then Record(tracker.log, e.lineNum, ShownTitle(ranked[j])) else tracker.log).0;
      if Outcome(outcomes, j) {
        tracker.Add(e.lineNum, ShownTitle(ranked[j]));
      }
      j := j + 1;
    }
  }

  /** The claim of one pass of the search branch's loop: the candidate's title and artist, then the claim. */
  method ClaimAt(e: Entry, ranked: seq<Candidate>, j: nat, reg: ClaimRegistry) returns (granted: bool)
    requires j < |ranked| && reg.Valid()
    modifies reg
    ensures reg.Valid()
    ensures var x := Tag(e, ranked)[j];
      granted == Grants(old(reg.claims), x.scope, x.title) && reg.claims == AfterClaim(old(reg.claims), x.scope, x.title)
  {
    TagAt(e, ranked);
    var c := ranked[j];
    var title := ClaimTitle(c);
    var artist := ArtistOf(c);
    var scope := if e.specific then LineScope(e.lineNum) else ArtistScope(artist);
    granted := reg.TryClaim(scope, title);
  }

  /** One pass of the claim loop that does not end it: the loop goes on from the next position with the claim made and any success logged. */
  lemma ClaimLoopNext(e: Entry, plan: seq<Claimable>, i: nat, outcomes: seq<bool>, claims: ClaimMap, log: Log)
    requires i < |plan|
    requires !(Grants(claims, plan[i].scope, plan[i].title) && Outcome(outcomes, i) && e.specific)
    ensures var x := plan[i];
      var logged := Grants(claims, x.scope, x.title) && Outcome(outcomes, i);
      var log' := if logged then Record(log, e.lineNum, ShownTitle(x.candidate)) else log;
      var r := ClaimLoop(e, plan, i, outcomes, claims, log);
      var r' := ClaimLoop(e, plan, i + 1, outcomes, AfterClaim(claims, x.scope, x.title), log');
      r.claims == r'.claims && r.log == r'.log
  {
    var x := plan[i];
    AfterClaimEffect(claims, x.scope, x.title);
  }

  /** A song's first successful download ends the claim loop. */
  lemma ClaimLoopStops(e: Entry, plan: seq<Claimable>, i: nat, outcomes: seq<bool>, claims: ClaimMap, log: Log)
    requires i < |plan|
    requires Grants(claims, plan[i].scope, plan[i].title) && Outcome(outcomes, i) && e.specific
    ensures var x := plan[i];
      var r := ClaimLoop(e, plan, i, outcomes, claims, log);
      r.claims == AfterClaim(claims, x.scope, x.title) && r.log == Record(log, e.lineNum, ShownTitle(x.candidate))
  {
  }

  /**
   * One pass of the claim loop: claim the candidate at `j` under its scope
   * and, if granted, download it and log a success; `stop` tells whether a
   * song got its title.
   */
  method ClaimAndTry(e: Entry, ranked: seq<Candidate>, j: nat, outcomes: seq<bool>, reg: ClaimRegistry, tracker: DownloadTracker)
    returns (stop: bool)
    requires j < |ranked| && reg.Valid()
    modifies reg, tracker
    ensures reg.Valid()
    ensures var x := Tag(e, ranked)[j];
      var logged := Grants(old(reg.claims), x.scope, x.title) && Outcome(outcomes, j);
      && reg.claims == AfterClaim(old(reg.claims), x.scope, x.title)
      && tracker.log == (if logged then Record(old(tracker.log), e.lineNum, ShownTitle(x.candidate)) else old(tracker.log))
      && stop == (logged && e.specific)
  {
    TagCandidates(e, ranked);
    var granted := ClaimAt(e, ranked, j, reg);
    stop := false;
    if granted && Outcome(outcomes, j) {
      tracker.Add(e.lineNum, ShownTitle(ranked[j]));
      stop := e.specific;
    }
  }

  /** The claim loop of the search branch: claims each candidate, tries the granted ones, stops after a song's first success. */
  method ClaimAndDownload(e: Entry, ranked: seq<Candidate>, outcomes: seq<bool>, reg: ClaimRegistry, tracker: DownloadTracker)
    requires reg.Valid()
    modifies reg, tracker
    ensures reg.Valid()
    ensures var r := ClaimLoop(e, Tag(e, ranked), 0, outcomes, old(reg.claims), old(tracker.log));
      reg.claims == r.claims && tracker.log == r.log
  {
    ghost var plan := Tag(e, ranked);
    ghost var goal := ClaimLoop(e, plan, 0, outcomes, reg.claims, tracker.log);
    var j := 0;
    while j < |ranked|
      invariant 0 <= j <= |ranked| && reg.Valid()
      invariant ClaimLoop(e, plan, j, outcomes, reg.claims, tracker.log).claims == goal.claims
      invariant ClaimLoop(e, plan, j, outcomes, reg.claims, tracker.log).log == goal.log
    {
      ghost var claims0, log0 := reg.claims, tracker.log;
      var stop := ClaimAndTry(e, ranked, j, outcomes, reg, tracker);
      if stop {
        ClaimLoopStops(e, plan, j, outcomes, claims0, log0);
        break;
      }
      ClaimLoopNext(e, plan, j, outcomes, claims0, log0);
      j := j + 1;
    }
  }

  /** The playlist branch of `download_single`. */
  method PlaylistBranch(e: Entry, items: seq<Option<Candidate>>, existing: set<string>, outcomes: seq<bool>,
                        reg: ClaimRegistry, tracker: DownloadTracker)
    requires reg.Valid()
    modifies reg, tracker
    ensures reg.Valid()
    ensures var r := PlaylistEffect(e, items, existing, old(reg.claims), old(tracker.log), outcomes);
      reg.claims == r.claims && tracker.log == r.log
  {
    var selected := SelectFromPlaylist(e, items, existing, reg);
    var ranked := Rank(Candidates(selected));
    if ranked != [] {
      DownloadEach(e, ranked, outcomes, tracker);
    }
  }

  /** The search branch of `download_single`, over the items the resolver offered. */
  method SearchBranch(e: Entry, items: seq<Option<Candidate>>, existing: set<string>, outcomes: seq<bool>,
                      reg: ClaimRegistry, tracker: DownloadTracker)
    requires reg.Valid()
    modifies reg, tracker
    ensures reg.Valid()
    ensures var r := SearchEffect(e, items, existing, old(reg.claims), old(tracker.log), outcomes);
      reg.claims == r.claims && tracker.log == r.log
  {
    var unseen := DropExisting(items, existing);
    if unseen != [] {
      var ranked := Rank(unseen);
      if e.specific && |ranked| > 1 {
        ranked := ranked[..1];
      }
      ClaimAndDownload(e, ranked, outcomes, reg, tracker);
    }
  }

  /**
   * `download_single`: builds the query, asks the resolver, and runs the
   * playlist or the search branch against the shared registry and log.
   * The registry and the log end as `Process` says.
   */
  method DownloadSingle(e: Entry, top: int, resolve: string -> Resolved, existing: set<string>, outcomes: seq<bool>,
                        reg: ClaimRegistry, tracker: DownloadTracker)
    requires reg.Valid()
    modifies reg, tracker
    ensures reg.Valid()
    ensures var r := Process(e, resolve(BuildQuery(e.text, top, e.specific)), existing, old(reg.claims), old(tracker.log), outcomes);
      reg.claims == r.claims && tracker.log == r.log
  {
    var info := resolve(BuildQuery(e.text, top, e.specific));
    match info {
      case Playlist(_, items) =>
        PlaylistBranch(e, items, existing, outcomes, reg, tracker);
      case Listing(items) =>
        SearchBranch(e, items, existing, outcomes, reg, tracker);
      case Video(c) =>
        SearchBranch(e, [Some(c)], existing, outcomes, reg, tracker);
      case ResolveFailed =>
      case NothingFound =>
    }
  }
}
