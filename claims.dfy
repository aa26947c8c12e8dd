/**
 * The claim registry: the shared `artist_tracker` dictionary, keyed by a
 * line number for specific songs and by an artist key for artists, each
 * mapped to the set of lower-cased titles claimed under it. A claim is the
 * atomic check-and-insert done under the lock; claims are never removed.
 */
module Claims {

  /** A dictionary key: the source mixes `int` line numbers and `str` artist keys in one dictionary. */
  datatype Scope = LineScope(line: int) | ArtistScope(key: string)

  type ClaimMap = map<Scope, set<string>>

  /** One claim request: a scope and the lower-cased title asked for. */
  datatype Request = Request(scope: Scope, title: string)

  /** The titles claimed under `s`; a missing key behaves as the empty set the source inserts for it. */
  function Claimed(m: ClaimMap, s: Scope): set<string> {
    if s in m then m[s] else {}
  }

  /** Whether a claim is granted: a line takes one title ever, an artist each title once. */
  predicate Grants(m: ClaimMap, s: Scope, title: string) {
    match s
    case LineScope(_) => Claimed(m, s) == {}
    case ArtistScope(_) => title !in Claimed(m, s)
  }

  /** The dictionary after a claim: a granted title is added under its scope, a refused claim changes nothing. */
  function AfterClaim(m: ClaimMap, s: Scope, title: string): (m': ClaimMap)
    ensures forall s' :: s' != s ==> Claimed(m', s') == Claimed(m, s')
  {
    if Grants(m, s, title) then m[s := Claimed(m, s) + {title}] else m
  }

  /** Every line scope holds at most one title. */
  predicate LineCapped(m: ClaimMap) {
    forall s :: s in m && s.LineScope? ==> |m[s]| <= 1
  }

  /**
   * A claim inserts exactly the title asked for when granted, and nothing
   * otherwise; the title is claimed afterwards either way, except for a
   * line that already holds another title.
   */
  lemma AfterClaimEffect(m: ClaimMap, s: Scope, title: string)
    ensures Grants(m, s, title) ==> Claimed(AfterClaim(m, s, title), s) == Claimed(m, s) + {title}
    ensures !Grants(m, s, title) ==> AfterClaim(m, s, title) == m
    ensures s.ArtistScope? ==> title in Claimed(AfterClaim(m, s, title), s)
    ensures s.LineScope? ==> |Claimed(AfterClaim(m, s, title), s)| >= 1
  {
    if !Grants(m, s, title) && s.LineScope? {
      var t :| t in Claimed(m, s);
      assert |Claimed(m, s)| >= 1 by {
        assert {t} <= Claimed(m, s);
      }
    }
  }

  /** Claims only grow: nothing claimed is ever taken back. */
  lemma AfterClaimGrows(m: ClaimMap, s: Scope, title: string, s': Scope)
    ensures Claimed(m, s') <= Claimed(AfterClaim(m, s, title), s')
  {
  }

  /** A claim keeps every line scope at one title at most. */
  lemma AfterClaimCapped(m: ClaimMap, s: Scope, title: string)
    requires LineCapped(m)
    ensures LineCapped(AfterClaim(m, s, title))
  {
    var m' := AfterClaim(m, s, title);
    forall s' | s' in m' && s'.LineScope? ensures |m'[s']| <= 1 {
      if s' == s && Grants(m, s, title) {
        assert m'[s'] == {title};
      }
    }
  }

  /** A title already claimed under its scope is refused. */
  lemma ClaimedRefused(m: ClaimMap, s: Scope, title: string)
    requires title in Claimed(m, s)
    ensures !Grants(m, s, title)
  {
  }

  /** Requests served one at a time, in order (each lock-protected block is one atomic step): the final dictionary and whether each was granted. */
  function Replay(m: ClaimMap, reqs: seq<Request>): (r: (ClaimMap, seq<bool>))
    ensures |r.1| == |reqs|
    decreases |reqs|
  {
    if reqs == [] then (m, [])
    else
      var q := reqs[0];
      var rest := Replay(AfterClaim(m, q.scope, q.title), reqs[1..]);
      (rest.0, [Grants(m, q.scope, q.title)] + rest.1)
  }

  /** Once a title is claimed under a scope, no later request for it is granted. */
  lemma {:induction false} ReplayNeverAgain(m: ClaimMap, reqs: seq<Request>, q: Request)
    requires q.title in Claimed(m, q.scope)
    ensures forall k :: 0 <= k < |reqs| && reqs[k] == q ==> !Replay(m, reqs).1[k]
    decreases |reqs|
  {
    if reqs != [] {
      var m1 := AfterClaim(m, reqs[0].scope, reqs[0].title);
      AfterClaimGrows(m, reqs[0].scope, reqs[0].title, q.scope);
      ReplayNeverAgain(m1, reqs[1..], q);
      forall k | 0 < k < |reqs| && reqs[k] == q ensures !Replay(m, reqs).1[k] {
        assert reqs[1..][k - 1] == q;
      }
    }
  }

  /** Once a line holds a title, no later request under that line is granted. */
  lemma {:induction false} ReplayLineNeverAgain(m: ClaimMap, reqs: seq<Request>, line: int)
    requires Claimed(m, LineScope(line)) != {}
    ensures forall k :: 0 <= k < |reqs| && reqs[k].scope == LineScope(line) ==> !Replay(m, reqs).1[k]
    decreases |reqs|
  {
    if reqs != [] {
      var m1 := AfterClaim(m, reqs[0].scope, reqs[0].title);
      AfterClaimGrows(m, reqs[0].scope, reqs[0].title, LineScope(line));
      ReplayLineNeverAgain(m1, reqs[1..], line);
      forall k | 0 < k < |reqs| && reqs[k].scope == LineScope(line) ensures !Replay(m, reqs).1[k] {
        assert reqs[1..][k - 1] == reqs[k];
      }
    }
  }

  /** However requests interleave, the same title is never granted twice under the same scope. */
  lemma {:induction false} ReplayGrantsOnce(m: ClaimMap, reqs: seq<Request>, i: nat, j: nat)
    requires i < j < |reqs| && reqs[i] == reqs[j]
    ensures !(Replay(m, reqs).1[i] && Replay(m, reqs).1[j])
    decreases |reqs|
  {
    var m1 := AfterClaim(m, reqs[0].scope, reqs[0].title);
    assert reqs[1..][j - 1] == reqs[j];
    if i == 0 {
      if Grants(m, reqs[0].scope, reqs[0].title) {
        AfterClaimEffect(m, reqs[0].scope, reqs[0].title);
        ReplayNeverAgain(m1, reqs[1..], reqs[0]);
      }
    } else {
      assert reqs[1..][i - 1] == reqs[i];
      ReplayGrantsOnce(m1, reqs[1..], i - 1, j - 1);
    }
  }

  /** However requests interleave, a line grants at most one request. */
  lemma {:induction false} ReplayLineOnce(m: ClaimMap, reqs: seq<Request>, i: nat, j: nat)
    requires i < j < |reqs| && reqs[i].scope.LineScope? && reqs[i].scope == reqs[j].scope
    ensures !(Replay(m, reqs).1[i] && Replay(m, reqs).1[j])
    decreases |reqs|
  {
    var m1 := AfterClaim(m, reqs[0].scope, reqs[0].title);
    assert reqs[1..][j - 1] == reqs[j];
    if i == 0 {
      if Grants(m, reqs[0].scope, reqs[0].title) {
        AfterClaimEffect(m, reqs[0].scope, reqs[0].title);
        ReplayLineNeverAgain(m1, reqs[1..], reqs[0].scope.line);
      }
    } else {
      assert reqs[1..][i - 1] == reqs[i];
      ReplayLineOnce(m1, reqs[1..], i - 1, j - 1);
    }
  }

  /** The number of granted requests. */
  function CountGranted(grants: seq<bool>): nat {
    if grants == [] then 0 else (if grants[0] then 1 else 0) + CountGranted(grants[1..])
  }

  /** Several workers racing for the same unclaimed title under the same scope: exactly one wins, the first served. */
  lemma {:induction false} ReplayRace(m: ClaimMap, q: Request, n: nat)
    requires n >= 1 && Grants(m, q.scope, q.title)
    ensures var grants := Replay(m, seq(n, _ => q)).1;
      grants[0] && CountGranted(grants) == 1
  {
    var reqs := seq(n, _ => q);
    var m1 := AfterClaim(m, q.scope, q.title);
    AfterClaimEffect(m, q.scope, q.title);
    var rest := reqs[1..];
    ReplayNeverAgain(m1, rest, q);
    NoneGranted(Replay(m1, rest).1);
  }

  lemma {:induction false} NoneGranted(grants: seq<bool>)
    requires forall k :: 0 <= k < |grants| ==> !grants[k]
    ensures CountGranted(grants) == 0
    decreases |grants|
  {
    if grants != [] {
      NoneGranted(grants[1..]);
    }
  }

  /** The registry object: the dictionary behind the lock, with the claim block as one atomic method. */
  class ClaimRegistry {
    var claims: ClaimMap

    predicate Valid()
      reads this
    {
      LineCapped(claims)
    }

    /** The empty dictionary `main` creates before starting the workers. */
    constructor ()
      ensures claims == map[] && Valid()
    {
      claims := map[];
      new;
      assert forall s :: s !in claims;
    }

    /** The `with lock:` block: grants or refuses the title under the scope, recording it when granted. */
    method TryClaim(scope: Scope, title: string) returns (granted: bool)
      requires Valid()
      modifies this
      ensures Valid()
      ensures granted == Grants(old(claims), scope, title)
      ensures claims == AfterClaim(old(claims), scope, title)
    {
      AfterClaimCapped(claims, scope, title);
      var current := if scope in claims then claims[scope] else {};
      match scope {
        case LineScope(_) =>
          granted := current == {};
        case ArtistScope(_) =>
          granted := title !in current;
      }
      if granted {
        claims := claims[scope := current + {title}];
      }
    }
  }
}
