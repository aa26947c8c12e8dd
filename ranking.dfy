/**
 * The candidate ranker (`is_low_priority_version`, `filter_and_sort_entries`):
 * drop lyric/cover/karaoke/... versions when an alternative exists, then
 * order by the preference key with a stable sort.
 */
module Ranking {
  import opened Options
  import opened Text

  /**
   * A resolved video as the ranker sees it: the metadata keys it reads, each
   * absent when the dictionary lacks it (`viewCount` is also absent for a
   * `None` value, which `or 0` treats alike). The duration, in seconds, may
   * be fractional.
   */
  datatype Candidate = Candidate(title: Option<string>, ext: Option<string>, duration: Option<real>, viewCount: Option<int>)

  /** The whole word `w` occurs at `i` of `s`: `\bw\b` for a word `w` made of word characters. */
  predicate WordAt(s: string, i: int, w: string) {
    && OccursAt(s, i, w)
    && (i == 0 || !IsWordChar(s[i - 1]))
    && (i + |w| == |s| || !IsWordChar(s[i + |w|]))
  }

  /** `\b(?:w)\b` somewhere in `s`. */
  predicate HasWord(s: string, w: string) {
    exists i | 0 <= i <= |s| :: WordAt(s, i, w)
  }

  /** `#\d+` somewhere in `s`: a `#` followed by a digit. */
  predicate HasNumberTag(s: string) {
    exists i | 0 <= i < |s| - 1 :: s[i] == '#' && IsDigit(s[i + 1])
  }

  /** The words of the first and third patterns of `LOWER_PRIORITY_PATTERNS`. */
  const LowPriorityWords: seq<string> := ["letra", "playback", "cover", "karaoke", "instrumental", "piano", "tutorial"]

  /** `is_low_priority_version`: one of the patterns occurs in the lower-cased title. */
  predicate IsLowPriority(title: string) {
    var lowered := Lower(title);
    || (exists k | 0 <= k < |LowPriorityWords| :: HasWord(lowered, LowPriorityWords[k]))
    || HasNumberTag(lowered)
  }

  /** The judgement ignores case: a title and its lower-cased form are judged alike. */
  lemma LowPriorityIgnoresCase(title: string)
    ensures IsLowPriority(Lower(title)) == IsLowPriority(title)
  {
    LowerIdempotent(title);
  }

  /** A title ending in one of the words, set off by a space, is low priority whatever precedes it. */
  lemma LowPriorityWordSuffix(title: string, k: nat)
    requires k < |LowPriorityWords|
    ensures IsLowPriority(title + " " + LowPriorityWords[k])
  {
    var w := LowPriorityWords[k];
    var t := title + " " + w;
    LowerAppend(title + " ", w);
    LowerAppend(title, " ");
    assert Lower(w) == w;
    assert Lower(" ") == " ";
    var s := Lower(t);
    assert s == Lower(title) + " " + w;
    assert s[|title| + 1..] == w;
    assert WordAt(s, |title| + 1, w);
  }

  /** A title ending in a `#` and a digit is low priority whatever precedes it. */
  lemma LowPriorityNumberSuffix(title: string, d: char)
    requires IsDigit(d)
    ensures IsLowPriority(title + ['#', d])
  {
    var s := Lower(title + ['#', d]);
    assert s[|title|] == '#' && s[|title| + 1] == d;
  }

  /** The title a candidate is judged by: `e.get("title", "")`. */
  function RankTitle(c: Candidate): string {
    c.title.GetOr("")
  }

  /** The candidates whose title is not low priority, in order. */
  function PriorityOnly(cs: seq<Candidate>): (ps: seq<Candidate>)
    ensures |ps| <= |cs|
    ensures forall i :: 0 <= i < |ps| ==> !IsLowPriority(RankTitle(ps[i]))
  {
    if cs == [] then []
    else (if IsLowPriority(RankTitle(cs[0])) then [] else [cs[0]]) + PriorityOnly(cs[1..])
  }

  /** The filtering step: keep only priority candidates when there is more than one candidate and some survive. */
  function Kept(cs: seq<Candidate>): seq<Candidate> {
    if |cs| > 1 && PriorityOnly(cs) != [] then PriorityOnly(cs) else cs
  }

  /** The sort key `("webm" in ext, duration > 600, -(view_count or 0))`. */
  datatype SortKey = SortKey(webm: bool, long: bool, negViews: int)

  function KeyOf(c: Candidate): SortKey {
    SortKey(Contains(c.ext.GetOr(""), "webm"), c.duration.GetOr(0.0) > 600.0, -c.viewCount.GetOr(0))
  }

  /** `False < True`, as Python orders booleans. */
  predicate BoolLt(a: bool, b: bool) {
    !a && b
  }

  /** Python's lexicographic order on the key tuples. */
  predicate KeyLt(a: SortKey, b: SortKey) {
    || BoolLt(a.webm, b.webm)
    || (a.webm == b.webm && BoolLt(a.long, b.long))
    || (a.webm == b.webm && a.long == b.long && a.negViews < b.negViews)
  }

  predicate KeyLe(a: SortKey, b: SortKey) {
    KeyLt(a, b) || a == b
  }

  /** Sorted ascending by key. */
  predicate SortedByKey(cs: seq<Candidate>) {
    forall i, j :: 0 <= i < j < |cs| ==> KeyLe(KeyOf(cs[i]), KeyOf(cs[j]))
  }

  /** Inserts `c` before the first candidate whose key is not below its own. */
  function Insert(c: Candidate, cs: seq<Candidate>): seq<Candidate>
  {
    if cs == [] || KeyLe(KeyOf(c), KeyOf(cs[0])) then [c] + cs
    else [cs[0]] + Insert(c, cs[1..])
  }

  /** Python's `sorted` with the key above, as an insertion sort that keeps equal keys in input order. */
  function StableSort(cs: seq<Candidate>): seq<Candidate>
  {
    if cs == [] then [] else Insert(cs[0], StableSort(cs[1..]))
  }

  /** `filter_and_sort_entries`. */
  function Rank(cs: seq<Candidate>): seq<Candidate> {
    StableSort(Kept(cs))
  }

  /** The candidates of `cs` with key `k`, in order. */
  function WithKey(cs: seq<Candidate>, k: SortKey): seq<Candidate> {
    if cs == [] then []
    else (if KeyOf(cs[0]) == k then [cs[0]] else []) + WithKey(cs[1..], k)
  }

  lemma {:induction false} InsertPermutes(c: Candidate, cs: seq<Candidate>)
    ensures multiset(Insert(c, cs)) == multiset(cs) + multiset{c}
    decreases |cs|
  {
    if !(cs == [] || KeyLe(KeyOf(c), KeyOf(cs[0]))) {
      InsertPermutes(c, cs[1..]);
      assert cs == [cs[0]] + cs[1..];
    }
  }

  lemma {:induction false} InsertSorted(c: Candidate, cs: seq<Candidate>)
    requires SortedByKey(cs)
    ensures SortedByKey(Insert(c, cs))
    ensures Insert(c, cs) != [] && (Insert(c, cs)[0] == c || (cs != [] && Insert(c, cs)[0] == cs[0]))
    decreases |cs|
  {
    if cs == [] || KeyLe(KeyOf(c), KeyOf(cs[0])) {
      var r := [c] + cs;
      forall i, j | 0 <= i < j < |r| ensures KeyLe(KeyOf(r[i]), KeyOf(r[j])) {
        if i == 0 {
          assert KeyLe(KeyOf(cs[0]), KeyOf(cs[j - 1]));
        } else {
          assert r[i] == cs[i - 1] && r[j] == cs[j - 1];
        }
      }
    } else {
      var tail := Insert(c, cs[1..]);
      InsertSorted(c, cs[1..]);
      var r := [cs[0]] + tail;
      InsertPermutes(c, cs[1..]);
      forall i, j | 0 <= i < j < |r| ensures KeyLe(KeyOf(r[i]), KeyOf(r[j])) {
        if i == 0 {
          assert r[j] in multiset(tail);
          assert r[j] == c || r[j] in multiset(cs[1..]);
          if r[j] != c {
            var m :| 0 <= m < |cs[1..]| && cs[1..][m] == r[j];
            assert KeyLe(KeyOf(cs[0]), KeyOf(cs[m + 1]));
          }
        } else {
          assert r[i] == tail[i - 1] && r[j] == tail[j - 1];
        }
      }
    }
  }

  lemma {:induction false} InsertWithKey(c: Candidate, cs: seq<Candidate>, k: SortKey)
    ensures WithKey(Insert(c, cs), k) == (if KeyOf(c) == k then [c] else []) + WithKey(cs, k)
    decreases |cs|
  {
    if cs == [] || KeyLe(KeyOf(c), KeyOf(cs[0])) {
      assert ([c] + cs)[1..] == cs;
    } else {
      InsertWithKey(c, cs[1..], k);
      assert ([cs[0]] + Insert(c, cs[1..]))[1..] == Insert(c, cs[1..]);
    }
  }

  /** The sort's output is ordered by key. */
  lemma {:induction false} StableSortSorted(cs: seq<Candidate>)
    ensures SortedByKey(StableSort(cs))
    decreases |cs|
  {
    if cs != [] {
      StableSortSorted(cs[1..]);
      InsertSorted(cs[0], StableSort(cs[1..]));
    }
  }

  /** The sort's output is a rearrangement of its input. */
  lemma {:induction false} StableSortPermutes(cs: seq<Candidate>)
    ensures multiset(StableSort(cs)) == multiset(cs)
    decreases |cs|
  {
    if cs != [] {
      StableSortPermutes(cs[1..]);
      InsertPermutes(cs[0], StableSort(cs[1..]));
      assert cs == [cs[0]] + cs[1..];
    }
  }

  /** The sort is stable: the candidates sharing any one key keep their input order. */
  lemma {:induction false} StableSortStable(cs: seq<Candidate>, k: SortKey)
    ensures WithKey(StableSort(cs), k) == WithKey(cs, k)
    decreases |cs|
  {
    if cs != [] {
      StableSortStable(cs[1..], k);
      InsertWithKey(cs[0], StableSort(cs[1..]), k);
    }
  }

  lemma {:induction false} PriorityOnlyMultiset(cs: seq<Candidate>)
    ensures multiset(PriorityOnly(cs)) <= multiset(cs)
    ensures forall c :: c in cs && !IsLowPriority(RankTitle(c)) ==> multiset(PriorityOnly(cs))[c] == multiset(cs)[c]
    decreases |cs|
  {
    if cs != [] {
      PriorityOnlyMultiset(cs[1..]);
      assert cs == [cs[0]] + cs[1..];
    }
  }

  lemma {:induction false} PriorityOnlyEmpty(cs: seq<Candidate>)
    ensures PriorityOnly(cs) == [] <==> forall i :: 0 <= i < |cs| ==> IsLowPriority(RankTitle(cs[i]))
    decreases |cs|
  {
    if cs != [] {
      PriorityOnlyEmpty(cs[1..]);
      forall i | 0 < i < |cs| ensures cs[i] == cs[1..][i - 1] {}
    }
  }

  /** The ranked list is drawn from the candidates, each at most as often as it was offered. */
  lemma RankSubMultiset(cs: seq<Candidate>)
    ensures multiset(Rank(cs)) <= multiset(cs)
  {
    StableSortPermutes(Kept(cs));
    PriorityOnlyMultiset(cs);
  }

  /**
   * With more than one candidate and some title that is not low priority,
   * the ranked list is exactly the priority candidates: no low-priority
   * title survives and none of the others is lost.
   */
  lemma RankDropsLowPriority(cs: seq<Candidate>, i: nat)
    requires |cs| > 1 && i < |cs| && !IsLowPriority(RankTitle(cs[i]))
    ensures multiset(Rank(cs)) == multiset(PriorityOnly(cs))
    ensures forall j :: 0 <= j < |Rank(cs)| ==> !IsLowPriority(RankTitle(Rank(cs)[j]))
  {
    PriorityOnlyEmpty(cs);
    StableSortPermutes(PriorityOnly(cs));
    forall j | 0 <= j < |Rank(cs)| ensures !IsLowPriority(RankTitle(Rank(cs)[j])) {
      assert Rank(cs)[j] in multiset(PriorityOnly(cs));
    }
  }

  /** With one candidate, or when every title is low priority, nothing is dropped. */
  lemma RankKeepsAll(cs: seq<Candidate>)
    requires |cs| <= 1 || forall i :: 0 <= i < |cs| ==> IsLowPriority(RankTitle(cs[i]))
    ensures multiset(Rank(cs)) == multiset(cs)
  {
    PriorityOnlyEmpty(cs);
    StableSortPermutes(cs);
  }

  /** Ranked candidates come in key order, and equal keys in the order the filter left them. */
  lemma RankOrdered(cs: seq<Candidate>, k: SortKey)
    ensures SortedByKey(Rank(cs))
    ensures WithKey(Rank(cs), k) == WithKey(Kept(cs), k)
  {
    StableSortSorted(Kept(cs));
    StableSortStable(Kept(cs), k);
  }

  /** Ranking a non-empty list never leaves it empty. */
  lemma RankNonEmpty(cs: seq<Candidate>)
    ensures |Rank(cs)| == 0 <==> |cs| == 0
  {
    StableSortPermutes(Kept(cs));
    assert |Rank(cs)| == |multiset(Rank(cs))|;
  }
}
