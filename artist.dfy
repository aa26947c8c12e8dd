/**
 * The artist key of a track title (`extract_artist_name`): the lower-cased
 * text before an "Artist - Title" separator, else the text before a
 * "feat."/"ft."/"com" marker, else the whole lower-cased title. Two
 * regular expressions are modelled: each as a scan that computes the end of
 * the lazy group, and as a reference predicate stating when a group end
 * lets the expression match, with lemmas that the scan finds the least such
 * end, which is the one a lazy `(.*?)` settles on.
 */
module ArtistKey {
  import opened Options
  import opened Text

  /** The characters of the class `[-–|]`. */
  predicate IsSeparator(c: char) {
    c == '-' || c == '\U{2013}' || c == '|'
  }

  /** `.` matches every character except a line feed, so `(.*?)` can cover `t[..g]` exactly when none is there. */
  predicate NoLineFeed(t: string, g: int) {
    forall i :: 0 <= i < g && i < |t| ==> t[i] != '\n'
  }

  /** Every character of `t[g..j]` is whitespace. */
  predicate SpacesBetween(t: string, g: int, j: int) {
    forall i :: g <= i < j && 0 <= i < |t| ==> IsSpace(t[i])
  }

  /** `\s*[-–|]` matches from `g` with the separator at `j`. */
  predicate SeparatorAfterSpaces(t: string, g: int, j: int) {
    0 <= g <= j < |t| && SpacesBetween(t, g, j) && IsSeparator(t[j])
  }

  /** `^(.*?)\s*[-–|]\s*` matches `t` with group 1 equal to `t[..g]`. */
  predicate SeparatorMatch(t: string, g: int) {
    0 <= g <= |t| && NoLineFeed(t, g) && exists j | g <= j < |t| :: SeparatorAfterSpaces(t, g, j)
  }

  /** The first separator at or after `k`, or `|t|` when there is none. */
  function FirstSeparator(t: string, k: nat): (p: nat)
    requires k <= |t|
    ensures k <= p <= |t|
    ensures forall i :: k <= i < p ==> !IsSeparator(t[i])
    ensures p < |t| ==> IsSeparator(t[p])
    decreases |t| - k
  {
    if k == |t| || IsSeparator(t[k]) then k else FirstSeparator(t, k + 1)
  }

  /** Attempt 1 of `extract_artist_name`: the end of its group, or `None` when the expression does not match. */
  function SeparatorGroup(t: string): Option<nat> {
    var p := FirstSeparator(t, 0);
    if p == |t| then None
    else
      var g := EndBefore(t, p);
      if NoLineFeed(t, g) then Some(g) else None
  }

  /** Any group end that lets attempt 1 match lies at or after the scan's. */
  lemma SeparatorMatchNotBefore(t: string, g: nat)
    requires SeparatorMatch(t, g)
    ensures FirstSeparator(t, 0) < |t| && EndBefore(t, FirstSeparator(t, 0)) <= g
  {
    var p := FirstSeparator(t, 0);
    var j :| g <= j < |t| && SeparatorAfterSpaces(t, g, j);
    assert p <= j;
  }

  /** The scan's group end lets attempt 1 match, and no smaller one does: it is the lazy group. */
  lemma SeparatorGroupLeast(t: string)
    requires SeparatorGroup(t).Some?
    ensures SeparatorMatch(t, SeparatorGroup(t).value)
    ensures forall g :: 0 <= g < SeparatorGroup(t).value ==> !SeparatorMatch(t, g)
  {
    var p := FirstSeparator(t, 0);
    var g := EndBefore(t, p);
    assert SeparatorAfterSpaces(t, g, p);
    forall g' | 0 <= g' < g ensures !SeparatorMatch(t, g') {
      if SeparatorMatch(t, g') {
        SeparatorMatchNotBefore(t, g');
      }
    }
  }

  /** When the scan finds no group, attempt 1 does not match at all. */
  lemma SeparatorGroupNone(t: string)
    requires SeparatorGroup(t).None?
    ensures forall g :: !SeparatorMatch(t, g)
  {
    forall g | SeparatorMatch(t, g) ensures false {
      SeparatorMatchNotBefore(t, g);
    }
  }

  /** The ASCII word `m` (lower case) occurs at `j` of `t`, ignoring case. */
  predicate WordAtCI(t: string, j: int, m: string) {
    0 <= j && j + |m| <= |t| && forall i :: 0 <= i < |m| ==> LowerChar(t[j + i]) == m[i]
  }

  /** The marker `m` occurs at `j` and is followed by whitespace. */
  predicate MarkerThenSpace(t: string, j: int, m: string) {
    WordAtCI(t, j, m) && j + |m| < |t| && IsSpace(t[j + |m|])
  }

  /** `(?:feat\.?|ft\.?|com)\s` matches at `j`, ignoring case. */
  predicate FeatAt(t: string, j: int) {
    || MarkerThenSpace(t, j, "feat.")
    || MarkerThenSpace(t, j, "feat")
    || MarkerThenSpace(t, j, "ft.")
    || MarkerThenSpace(t, j, "ft")
    || MarkerThenSpace(t, j, "com")
  }

  /** `\s+(?:feat\.?|ft\.?|com)\s+` matches from `g` with the marker at `j`. */
  predicate MarkerAfterSpaces(t: string, g: int, j: int) {
    0 <= g < j < |t| && SpacesBetween(t, g, j) && FeatAt(t, j)
  }

  /** `^(.*?)\s+(?:feat\.?|ft\.?|com)\s+` matches `t` with group 1 equal to `t[..g]`. */
  predicate FeatMatch(t: string, g: int) {
    0 <= g <= |t| && NoLineFeed(t, g) && exists j | g < j < |t| :: MarkerAfterSpaces(t, g, j)
  }

  /** The first marker at or after `k` (with `k >= 1`) that has whitespace before it, or `|t|`. */
  function FirstMarker(t: string, k: nat): (j: nat)
    requires 1 <= k <= |t|
    ensures k <= j <= |t|
    ensures forall i :: k <= i < j ==> !(IsSpace(t[i - 1]) && FeatAt(t, i))
    ensures j < |t| ==> IsSpace(t[j - 1]) && FeatAt(t, j)
    decreases |t| - k
  {
    if k == |t| || (IsSpace(t[k - 1]) && FeatAt(t, k)) then k else FirstMarker(t, k + 1)
  }

  /** Attempt 2 of `extract_artist_name`: the end of its group, or `None` when the expression does not match. */
  function FeatGroup(t: string): Option<nat> {
    if t == [] then None
    else
      var j := FirstMarker(t, 1);
      if j == |t| then None
      else
        var g := EndBefore(t, j);
        if NoLineFeed(t, g) then Some(g) else None
  }

  /** A marker's first letter is not whitespace. */
  lemma FeatAtNotSpace(t: string, j: int)
    requires FeatAt(t, j)
    ensures !IsSpace(t[j])
  {
    var m := if MarkerThenSpace(t, j, "feat.") then "feat."
      else if MarkerThenSpace(t, j, "feat") then "feat"
      else if MarkerThenSpace(t, j, "ft.") then "ft."
      else if MarkerThenSpace(t, j, "ft") then "ft"
      else "com";
    assert LowerChar(t[j + 0]) == m[0];
  }

  /** Any group end that lets attempt 2 match lies at or after the scan's. */
  lemma FeatMatchNotBefore(t: string, g: nat)
    requires FeatMatch(t, g)
    ensures t != [] && FirstMarker(t, 1) < |t| && EndBefore(t, FirstMarker(t, 1)) <= g
  {
    var j :| g < j < |t| && MarkerAfterSpaces(t, g, j);
    assert IsSpace(t[j - 1]) && FeatAt(t, j);
    var q := FirstMarker(t, 1);
    assert q <= j;
    FeatAtNotSpace(t, q);
  }

  /** The scan's group end lets attempt 2 match, and no smaller one does: it is the lazy group. */
  lemma FeatGroupLeast(t: string)
    requires FeatGroup(t).Some?
    ensures FeatMatch(t, FeatGroup(t).value)
    ensures forall g :: 0 <= g < FeatGroup(t).value ==> !FeatMatch(t, g)
  {
    var q := FirstMarker(t, 1);
    var g := EndBefore(t, q);
    assert MarkerAfterSpaces(t, g, q);
    forall g' | 0 <= g' < g ensures !FeatMatch(t, g') {
      if FeatMatch(t, g') {
        FeatMatchNotBefore(t, g');
      }
    }
  }

  /** When the scan finds no group, attempt 2 does not match at all. */
  lemma FeatGroupNone(t: string)
    requires FeatGroup(t).None?
    ensures forall g :: !FeatMatch(t, g)
  {
    forall g | FeatMatch(t, g) ensures false {
      FeatMatchNotBefore(t, g);
    }
  }

  /** `extract_artist_name`: the first attempt that matches decides, its group stripped and lower-cased. */
  function ExtractArtistName(title: string): (key: string)
    ensures Lower(key) == key
    ensures |key| <= |title|
  {
    match SeparatorGroup(title)
    case Some(g) =>
      var key := Lower(Strip(title[..g]));
      LowerIdempotent(Strip(title[..g]));
      StripSlice(title[..g]);
      key
    case None =>
      match FeatGroup(title)
      case Some(g) =>
        var key := Lower(Strip(title[..g]));
        LowerIdempotent(Strip(title[..g]));
        StripSlice(title[..g]);
        key
      case None =>
        LowerIdempotent(title);
        Lower(title)
  }

  /**
   * The key is the regular expressions' answer: the stripped, lower-cased
   * lazy group of the first expression that matches, else the whole title
   * lower-cased.
   */
  lemma ExtractArtistNameMatches(title: string)
    ensures (exists g :: SeparatorMatch(title, g)) ==>
      exists g :: SeparatorMatch(title, g) && (forall g' :: 0 <= g' < g ==> !SeparatorMatch(title, g'))
        && ExtractArtistName(title) == Lower(Strip(title[..g]))
    ensures (forall g :: !SeparatorMatch(title, g)) && (exists g :: FeatMatch(title, g)) ==>
      exists g :: FeatMatch(title, g) && (forall g' :: 0 <= g' < g ==> !FeatMatch(title, g'))
        && ExtractArtistName(title) == Lower(Strip(title[..g]))
    ensures (forall g :: !SeparatorMatch(title, g)) && (forall g :: !FeatMatch(title, g)) ==>
      ExtractArtistName(title) == Lower(title)
  {
    if SeparatorGroup(title).Some? {
      SeparatorGroupLeast(title);
    } else {
      SeparatorGroupNone(title);
      if FeatGroup(title).Some? {
        FeatGroupLeast(title);
      } else {
        FeatGroupNone(title);
      }
    }
  }

  /**
   * "Artist - Title": when the artist part holds no separator and no line
   * feed, the key is the artist part, stripped and lower-cased.
   */
  lemma ExtractArtistNameSpaced(artist: string, song: string)
    requires forall i :: 0 <= i < |artist| ==> !IsSeparator(artist[i]) && artist[i] != '\n'
    ensures ExtractArtistName(artist + " - " + song) == Lower(Strip(artist))
  {
    var t := artist + " - " + song;
    var n := |artist|;
    assert t[n] == ' ' && t[n + 1] == '-';
    assert FirstSeparator(t, 0) == n + 1 by {
      forall i | 0 <= i < n ensures t[i] == artist[i] {}
    }
    EndBeforeSkips(t, n, n + 1);
    assert t[..n] == artist;
    EndBeforePrefix(t, artist, n);
    var g := EndBefore(artist, n);
    assert NoLineFeed(t, g);
    assert t[..g] == artist[..g];
    assert artist == artist[..g] + artist[g..];
    StripPadded(artist[..g], artist[g..]);
  }
}
