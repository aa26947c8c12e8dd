/**
 * Choosing what to ask the media resolver for an entry: a URL (or an
 * explicit `ytsearchN:` query) passes through, a specific song asks for one
 * search result, an artist for `top` results.
 */
module Query {
  import opened Options
  import opened Text

  /** `t` starts with the lower-case ASCII word `p`, ignoring case. */
  predicate StartsWithCI(t: string, p: string) {
    |p| <= |t| && forall i :: 0 <= i < |p| ==> LowerChar(t[i]) == p[i]
  }

  /** Position `k` closes an explicit search prefix: `ytsearch`, decimal digits, then `:` at `k`. */
  predicate SearchColonAt(t: string, k: int) {
    8 <= k < |t| && t[k] == ':' && AllDigits(t[8..k])
  }

  /** `re.match(r"^(https?://|ytsearch\d*:)", text, flags=re.IGNORECASE)`. */
  predicate IsUrl(t: string) {
    || StartsWithCI(t, "http://")
    || StartsWithCI(t, "https://")
    || (StartsWithCI(t, "ytsearch") && exists k | 8 <= k < |t| :: SearchColonAt(t, k))
  }

  /** `build_query`: URLs and explicit searches unchanged, otherwise one result for a song and `top` for an artist. */
  function BuildQuery(entry: string, top: int, specific: bool): string {
    if IsUrl(entry) then entry
    else if specific then "ytsearch1:" + entry
    else "ytsearch" + IntToString(top) + ":" + entry
  }

  /** The number of decimal digits at the start of `s`. */
  function LeadingDigits(s: string): (n: nat)
    ensures n <= |s| && AllDigits(s[..n])
    ensures n < |s| ==> !IsDigit(s[n])
  {
    if s != [] && IsDigit(s[0]) then
      var n := 1 + LeadingDigits(s[1..]);
      assert s[..n] == [s[0]] + s[1..][..n - 1];
      n
    else 0
  }

  /**
   * Reads an explicit search query back: for `ytsearch<digits>:<term>` (the
   * prefix in any case), the digits and the term.
   */
  function SplitSearch(q: string): Option<(string, string)> {
    if !StartsWithCI(q, "ytsearch") then None
    else
      var k := 8 + LeadingDigits(q[8..]);
      if k < |q| && q[k] == ':' then Some((q[8..k], q[k + 1..])) else None
  }

  /** A colon closing the search prefix sits right after the leading digits. */
  lemma SearchColonUnique(q: string, k': int)
    requires SearchColonAt(q, k')
    ensures k' == 8 + LeadingDigits(q[8..])
  {
    var rest := q[8..];
    var n := LeadingDigits(rest);
    forall j | 8 <= j < k' ensures IsDigit(q[j]) {
      assert q[j] == q[8..k'][j - 8];
    }
    forall j | 8 <= j < 8 + n ensures IsDigit(q[j]) {
      assert q[j] == rest[..n][j - 8];
    }
    assert 8 + n < |q| ==> q[8 + n] == rest[n];
  }

  /** The explicit-search alternative of `IsUrl` holds exactly when `SplitSearch` can read the query. */
  lemma SplitSearchIff(q: string)
    ensures (StartsWithCI(q, "ytsearch") && exists k | 8 <= k < |q| :: SearchColonAt(q, k)) <==> SplitSearch(q).Some?
  {
    if StartsWithCI(q, "ytsearch") {
      var rest := q[8..];
      var n := LeadingDigits(rest);
      var k := 8 + n;
      assert q[8..k] == rest[..n];
      forall k' | 8 <= k' < |q| && SearchColonAt(q, k') ensures k' == k {
        SearchColonUnique(q, k');
      }
      if k < |q| && q[k] == ':' {
        assert SearchColonAt(q, k);
      }
    }
  }

  /** Digits followed by a non-digit: exactly those digits lead. */
  lemma {:induction false} LeadingDigitsOf(digits: string, tail: string)
    requires AllDigits(digits) && tail != [] && !IsDigit(tail[0])
    ensures LeadingDigits(digits + tail) == |digits|
    decreases |digits|
  {
    var s := digits + tail;
    if digits == [] {
      assert s[0] == tail[0];
    } else {
      assert s[0] == digits[0] && IsDigit(digits[0]);
      assert s[1..] == digits[1..] + tail;
      assert AllDigits(digits[1..]) by {
        forall i | 0 <= i < |digits| - 1 ensures IsDigit(digits[1..][i]) {
          assert digits[1..][i] == digits[i + 1];
        }
      }
      LeadingDigitsOf(digits[1..], tail);
      assert LeadingDigits(s) == 1 + LeadingDigits(s[1..]);
    }
  }

  /** The prefix of a search query built here, in lower case, never looks like `http(s)://`. */
  lemma SearchPrefixNotHttp(q: string)
    requires |q| >= 8 && q[..8] == "ytsearch"
    ensures !StartsWithCI(q, "http://") && !StartsWithCI(q, "https://") && StartsWithCI(q, "ytsearch")
  {
    assert q[0] == 'y';
    forall i | 0 <= i < 8 ensures LowerChar(q[i]) == "ytsearch"[i] {
      assert q[i] == q[..8][i];
    }
  }

  /** A query written as `ytsearch`, digits, `:` and a term is read back as those digits and that term. */
  lemma SplitSearchOf(digits: string, term: string)
    requires AllDigits(digits)
    ensures SplitSearch("ytsearch" + digits + ":" + term) == Some((digits, term))
  {
    var q := "ytsearch" + digits + ":" + term;
    SearchPrefixNotHttp(q);
    var tail := ":" + term;
    assert q[8..] == digits + tail;
    LeadingDigitsOf(digits, tail);
    var k := 8 + |digits|;
    assert q[8..k] == digits;
    assert q[k] == ':';
    assert q[k + 1..] == term;
  }

  /**
   * The query of an entry that is not already a URL, for a song or a `top`
   * that is not negative, is read back as the requested count (one for a
   * song, `top` for an artist) and the entry itself.
   */
  lemma BuildQueryRoundTrip(entry: string, top: int, specific: bool)
    requires !IsUrl(entry) && (specific || top >= 0)
    ensures var count := if specific then 1 else top;
      && SplitSearch(BuildQuery(entry, top, specific)) == Some((NatToString(count), entry))
      && DigitsValue(NatToString(count)) == count
  {
    var count: nat := if specific then 1 else top;
    var digits := NatToString(count);
    assert BuildQuery(entry, top, specific) == "ytsearch" + digits + ":" + entry by {
      if specific {
        assert digits == "1";
      }
    }
    SplitSearchOf(digits, entry);
    NatToStringRoundTrip(count);
  }

  /**
   * The query is itself a URL (so building again changes nothing) exactly
   * when the entry was one, or a song, or `top` is not negative
   * (`ytsearch-1:` is not an explicit search).
   */
  lemma BuildQueryIsUrl(entry: string, top: int, specific: bool)
    ensures IsUrl(BuildQuery(entry, top, specific)) <==> IsUrl(entry) || specific || top >= 0
  {
    var q := BuildQuery(entry, top, specific);
    if !IsUrl(entry) {
      SearchPrefixNotHttp(q);
      if specific || top >= 0 {
        BuildQueryRoundTrip(entry, top, specific);
        SplitSearchIff(q);
      } else {
        assert q[8] == '-';
        forall k | 8 <= k < |q| ensures !SearchColonAt(q, k) {
          if k > 8 {
            assert q[8..k][0] == '-';
          }
        }
      }
    }
  }

  /** Building the query of a query changes nothing, whenever the first query is a URL. */
  lemma BuildQueryIdempotent(entry: string, top: int, specific: bool, top2: int, specific2: bool)
    requires IsUrl(entry) || specific || top >= 0
    ensures BuildQuery(BuildQuery(entry, top, specific), top2, specific2) == BuildQuery(entry, top, specific)
  {
    BuildQueryIsUrl(entry, top, specific);
  }
}
