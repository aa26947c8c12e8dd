/**
 * The "Download summary by entry" table `main` prints after the pool has
 * finished: one row per entry, in line order, whose last cell gives the
 * number of titles downloaded for the line and lists them, the first three
 * only (each cut to 40 characters) when there are more than three.
 */
module Summary {
  import opened Text
  import opened Entries
  import opened Query
  import opened Tracker

  /** One row: line number, entry type, entry text, downloaded songs. */
  datatype Row = Row(line: string, kind: string, entry: string, songs: string)

  /** What the list shows for a line with no download (Rich markup for a dimmed "None"). */
  const NoneShown: string := "[dim]None[/]"

  /** How many titles a long list shows, and how many characters of each. */
  const ShownItems: nat := 3
  const ItemWidth: nat := 40

  /** `f"'{item}'"`. */
  function Quoted(item: string): string {
    "'" + item + "'"
  }

  /** `f"'{item[:40]}...'" if len(item) > 40 else f"'{item}'"`: at most 45 characters, the item whole when it fits. */
  function Clipped(item: string): (r: string)
    ensures |r| <= ItemWidth + 5
    ensures |item| <= ItemWidth ==> r == Quoted(item)
    ensures |item| > ItemWidth ==> |r| == ItemWidth + 5 && r[..ItemWidth + 1] == "'" + item[..ItemWidth] && r[ItemWidth + 1..] == "...'"
  {
    if |item| > ItemWidth then Quoted(item[..ItemWidth] + "...") else Quoted(item)
  }

  /** Every item quoted. */
  function QuoteAll(items: seq<string>): (qs: seq<string>)
    ensures |qs| == |items|
    ensures forall k :: 0 <= k < |items| ==> qs[k] == Quoted(items[k])
  {
    seq(|items|, k requires 0 <= k < |items| => Quoted(items[k]))
  }

  /** Every item clipped. */
  function ClipAll(items: seq<string>): (qs: seq<string>)
    ensures |qs| == |items|
    ensures forall k :: 0 <= k < |items| ==> qs[k] == Clipped(items[k])
  {
    seq(|items|, k requires 0 <= k < |items| => Clipped(items[k]))
  }

  /** `display_list` for the titles downloaded for one line. */
  function DisplayList(downloaded: seq<string>): string {
    var n := |downloaded|;
    if n > ShownItems then
      Join(ClipAll(downloaded[..ShownItems]), ", ") + " and " + NatToString(n - ShownItems) + " more songs"
    else if n > 0 then Join(QuoteAll(downloaded), ", ")
    else NoneShown
  }

  /** `f"{num_downloads} ({display_list})"`. */
  function SongsCell(downloaded: seq<string>): string {
    NatToString(|downloaded|) + " (" + DisplayList(downloaded) + ")"
  }

  /** The row of one entry, given the download log. */
  function RowOf(e: Entry, log: Log): Row {
    Row(NatToString(e.lineNum), if e.specific then "Song" else "Artist", e.text, SongsCell(Downloaded(log, e.lineNum)))
  }

  /** Inserts `e` before the first entry whose line number is not smaller, so equal line numbers keep their order. */
  function InsertByLine(e: Entry, sorted: seq<Entry>): (r: seq<Entry>)
    ensures |r| == |sorted| + 1
    ensures multiset(r) == multiset(sorted) + multiset{e}
    decreases |sorted|
  {
    if sorted == [] || e.lineNum <= sorted[0].lineNum then [e] + sorted
    else
      assert sorted == [sorted[0]] + sorted[1..];
      [sorted[0]] + InsertByLine(e, sorted[1..])
  }

  /** `sorted(entries, key=lambda x: x[0])`: a stable insertion sort on line numbers. */
  function SortByLine(entries: seq<Entry>): (sorted: seq<Entry>)
    ensures |sorted| == |entries|
    decreases |entries|
  {
    if entries == [] then [] else InsertByLine(entries[0], SortByLine(entries[1..]))
  }

  /** Line numbers never decrease along `es`. */
  predicate LineSorted(es: seq<Entry>) {
    forall j, k :: 0 <= j < k < |es| ==> es[j].lineNum <= es[k].lineNum
  }

  /** Line numbers strictly increase along `es`. */
  predicate LineIncreasing(es: seq<Entry>) {
    forall j, k :: 0 <= j < k < |es| ==> es[j].lineNum < es[k].lineNum
  }

  /** The rows, one per entry, in the order of their line numbers. */
  function Rows(entries: seq<Entry>, log: Log): (rows: seq<Row>)
    ensures |rows| == |entries|
  {
    var sorted := SortByLine(entries);
    seq(|sorted|, k requires 0 <= k < |sorted| => RowOf(sorted[k], log))
  }

  // ---------------------------------------------------------------------
  // Sorting by line
  // ---------------------------------------------------------------------

  /** Inserting into a sorted list keeps it sorted; the result starts with the new entry or with the old first one. */
  lemma {:induction false} InsertByLineSorted(e: Entry, sorted: seq<Entry>)
    requires LineSorted(sorted)
    ensures LineSorted(InsertByLine(e, sorted))
    ensures InsertByLine(e, sorted)[0] == e || (sorted != [] && InsertByLine(e, sorted)[0] == sorted[0])
    decreases |sorted|
  {
    var r := InsertByLine(e, sorted);
    if sorted == [] || e.lineNum <= sorted[0].lineNum {
      forall j, k | 0 <= j < k < |r| ensures r[j].lineNum <= r[k].lineNum {
        if j == 0 {
          assert r[k] == sorted[k - 1];
          assert sorted[0].lineNum <= sorted[k - 1].lineNum;
        } else {
          assert r[j] == sorted[j - 1] && r[k] == sorted[k - 1];
        }
      }
    } else {
      var tail := sorted[1..];
      assert LineSorted(tail) by {
        forall j, k | 0 <= j < k < |tail| ensures tail[j].lineNum <= tail[k].lineNum {
          assert tail[j] == sorted[j + 1] && tail[k] == sorted[k + 1];
        }
      }
      InsertByLineSorted(e, tail);
      var rest := InsertByLine(e, tail);
      assert rest[0].lineNum >= sorted[0].lineNum by {
        if rest[0] != e {
          assert rest[0] == sorted[1];
        }
      }
      assert r == [sorted[0]] + rest;
      forall j, k | 0 <= j < k < |r| ensures r[j].lineNum <= r[k].lineNum {
        assert r[k] == rest[k - 1];
        if j == 0 {
          if k > 1 {
            assert rest[0].lineNum <= rest[k - 1].lineNum;
          }
        } else {
          assert r[j] == rest[j - 1];
        }
      }
    }
  }

  /** The sorted entries come in line order. */
  lemma {:induction false} SortByLineSorted(entries: seq<Entry>)
    ensures LineSorted(SortByLine(entries))
    decreases |entries|
  {
    if entries != [] {
      SortByLineSorted(entries[1..]);
      InsertByLineSorted(entries[0], SortByLine(entries[1..]));
    }
  }

  /** Sorting keeps every entry, as often as it occurs. */
  lemma {:induction false} SortByLinePermutes(entries: seq<Entry>)
    ensures multiset(SortByLine(entries)) == multiset(entries)
    decreases |entries|
  {
    if entries != [] {
      SortByLinePermutes(entries[1..]);
      assert entries == [entries[0]] + entries[1..];
    }
  }

  /** Entries already in strictly increasing line order are left as they are. */
  lemma {:induction false} SortByLineIdentity(entries: seq<Entry>)
    requires LineIncreasing(entries)
    ensures SortByLine(entries) == entries
    decreases |entries|
  {
    if entries != [] {
      var tail := entries[1..];
      assert LineIncreasing(tail) by {
        forall j, k | 0 <= j < k < |tail| ensures tail[j].lineNum < tail[k].lineNum {
          assert tail[j] == entries[j + 1] && tail[k] == entries[k + 1];
        }
      }
      SortByLineIdentity(tail);
      if tail != [] {
        assert entries[0].lineNum < tail[0].lineNum;
      }
      assert entries == [entries[0]] + tail;
    }
  }

  /** The rows' line cells read back as line numbers that never decrease. */
  lemma RowsByLine(entries: seq<Entry>, log: Log, j: nat, k: nat)
    requires j < k < |entries|
    ensures var rows := Rows(entries, log);
      DigitsValue(rows[j].line) <= DigitsValue(rows[k].line)
  {
    var sorted := SortByLine(entries);
    SortByLineSorted(entries);
    assert sorted[j].lineNum <= sorted[k].lineNum;
    NatToStringRoundTrip(sorted[j].lineNum);
    NatToStringRoundTrip(sorted[k].lineNum);
  }

  /** For the entries `parse_input` yields, sorting changes nothing: row `k` is the row of entry `k`. */
  lemma ParsedRows(lines: seq<string>, log: Log)
    ensures var entries := Classified(lines);
      var rows := Rows(entries, log);
      forall k :: 0 <= k < |entries| ==> rows[k] == RowOf(entries[k], log)
  {
    var entries := Classified(lines);
    forall j, k | 0 <= j < k < |entries| ensures entries[j].lineNum < entries[k].lineNum {
      ClassifiedIncreasing(lines, j, k);
    }
    SortByLineIdentity(entries);
  }

  // ---------------------------------------------------------------------
  // Joining
  // ---------------------------------------------------------------------

  lemma OccursShift(p: string, t: string, i: int, sub: string)
    requires OccursAt(t, i, sub)
    ensures OccursAt(p + t, |p| + i, sub)
  {
    assert (p + t)[|p| + i..|p| + i + |sub|] == t[i..i + |sub|];
  }

  lemma OccursPrefix(t: string, u: string, i: int, sub: string)
    requires OccursAt(t, i, sub)
    ensures OccursAt(t + u, i, sub)
  {
    assert (t + u)[i..i + |sub|] == t[i..i + |sub|];
  }

  /** Each joined item occurs in the joined string. */
  lemma {:induction false} JoinContains(items: seq<string>, sep: string, k: nat)
    requires k < |items|
    ensures Contains(Join(items, sep), items[k])
    decreases |items|
  {
    if |items| == 1 {
      assert OccursAt(Join(items, sep), 0, items[0]);
    } else if k == 0 {
      var rest := sep + Join(items[1..], sep);
      assert Join(items, sep) == items[0] + rest;
      assert OccursAt(items[0], 0, items[0]);
      OccursPrefix(items[0], rest, 0, items[0]);
    } else {
      JoinContains(items[1..], sep, k - 1);
      var i :| 0 <= i <= |Join(items[1..], sep)| - |items[k]| && OccursAt(Join(items[1..], sep), i, items[k]);
      OccursShift(items[0] + sep, Join(items[1..], sep), i, items[k]);
      assert Join(items, sep) == (items[0] + sep) + Join(items[1..], sep);
    }
  }

  /** A join starts with its first item. */
  lemma JoinStart(items: seq<string>, sep: string)
    requires items != []
    ensures |Join(items, sep)| >= |items[0]| && Join(items, sep)[..|items[0]|] == items[0]
  {
    if |items| > 1 {
      assert Join(items, sep) == items[0] + (sep + Join(items[1..], sep));
    }
  }

  // ---------------------------------------------------------------------
  // What the cell shows
  // ---------------------------------------------------------------------

  /** The list reads "None" exactly when nothing was downloaded for the line; otherwise it starts with a quoted title. */
  lemma DisplayListNone(downloaded: seq<string>)
    ensures DisplayList(downloaded) == NoneShown <==> downloaded == []
    ensures downloaded != [] ==> DisplayList(downloaded)[0] == '\''
  {
    var n := |downloaded|;
    if n > ShownItems {
      var items := ClipAll(downloaded[..ShownItems]);
      JoinStart(items, ", ");
      assert items[0][0] == '\'';
      var j := Join(items, ", ");
      assert j[0] == j[..|items[0]|][0];
      assert DisplayList(downloaded)[0] == j[0];
    } else if n > 0 {
      var items := QuoteAll(downloaded);
      JoinStart(items, ", ");
      assert items[0][0] == '\'';
      var j := Join(items, ", ");
      assert j[0] == j[..|items[0]|][0];
    }
  }

  /** With one to three downloads, every title appears whole, in quotes. */
  lemma DisplayListFull(downloaded: seq<string>, k: nat)
    requires k < |downloaded| <= ShownItems
    ensures Contains(DisplayList(downloaded), Quoted(downloaded[k]))
  {
    JoinContains(QuoteAll(downloaded), ", ", k);
  }

  /** Three items joined. */
  lemma JoinThree(items: seq<string>, sep: string)
    requires |items| == 3
    ensures Join(items, sep) == items[0] + sep + items[1] + sep + items[2]
  {
    var rest := items[1..];
    assert rest[1..] == [items[2]];
    assert Join(rest, sep) == items[1] + sep + items[2];
    assert Join(items, sep) == items[0] + sep + Join(rest, sep);
  }

  lemma Regroup(a: string, b: string, c: string, d: string)
    ensures a + b + c + d == a + (b + c + d)
  {
  }

  /** The long form of the list: the first three titles clipped and joined, then the count of the rest. */
  lemma DisplayListLong(downloaded: seq<string>)
    requires ShownItems < |downloaded|
    ensures var items := ClipAll(downloaded[..ShownItems]);
      DisplayList(downloaded) == Join(items, ", ") + (" and " + NatToString(|downloaded| - ShownItems) + " more songs")
  {
    var j := Join(ClipAll(downloaded[..ShownItems]), ", ");
    var count := NatToString(|downloaded| - ShownItems);
    assert DisplayList(downloaded) == j + " and " + count + " more songs";
    Regroup(j, " and ", count, " more songs");
  }

  /**
   * With more than three downloads, the first three appear clipped and the
   * list ends by counting the rest, a count that reads back as the number
   * of titles not shown.
   */
  lemma DisplayListTruncated(downloaded: seq<string>, k: nat)
    requires k < ShownItems < |downloaded|
    ensures var r := DisplayList(downloaded);
      var tail := " and " + NatToString(|downloaded| - ShownItems) + " more songs";
      && Contains(r, Clipped(downloaded[k]))
      && |r| >= |tail| && r[|r| - |tail|..] == tail
      && DigitsValue(NatToString(|downloaded| - ShownItems)) + ShownItems == |downloaded|
  {
    var items := ClipAll(downloaded[..ShownItems]);
    var tail := " and " + NatToString(|downloaded| - ShownItems) + " more songs";
    var j := Join(items, ", ");
    assert items[k] == Clipped(downloaded[k]);
    JoinContains(items, ", ", k);
    var i :| 0 <= i <= |j| - |items[k]| && OccursAt(j, i, items[k]);
    OccursPrefix(j, tail, i, items[k]);
    DisplayListLong(downloaded);
    NatToStringRoundTrip(|downloaded| - ShownItems);
  }

  /** With more than three downloads, the list's length is bounded whatever the titles' lengths. */
  lemma DisplayListBounded(downloaded: seq<string>)
    requires ShownItems < |downloaded|
    ensures |DisplayList(downloaded)| <= ShownItems * (ItemWidth + 5) + 4 + 16 + |NatToString(|downloaded| - ShownItems)|
  {
    var items := ClipAll(downloaded[..ShownItems]);
    JoinThree(items, ", ");
    assert |items[0]| <= 45 && |items[1]| <= 45 && |items[2]| <= 45;
    DisplayListLong(downloaded);
  }

  /** Digits followed by a text that does not start with a digit: the digits lead, and the text follows them. */
  lemma DigitsThenTail(digits: string, tail: string)
    requires AllDigits(digits) && tail != [] && !IsDigit(tail[0])
    ensures var s := digits + tail;
      LeadingDigits(s) == |digits| && s[..|digits|] == digits && s[|digits|..] == tail
  {
    LeadingDigitsOf(digits, tail);
  }

  /** The cell starts with the number of downloads, which reads back as that number, and wraps the list in parentheses. */
  lemma SongsCellCount(downloaded: seq<string>)
    ensures var cell := SongsCell(downloaded);
      var n := LeadingDigits(cell);
      && DigitsValue(cell[..n]) == |downloaded|
      && cell[n..] == " (" + DisplayList(downloaded) + ")"
  {
    var digits := NatToString(|downloaded|);
    var list := DisplayList(downloaded);
    Regroup(digits, " (", list, ")");
    DigitsThenTail(digits, " (" + list + ")");
    NatToStringRoundTrip(|downloaded|);
  }

  /** A line with at most one download shows "None" or that one title, whole. */
  lemma SongsCellSingle(downloaded: seq<string>)
    requires |downloaded| <= 1
    ensures SongsCell(downloaded) == if downloaded == [] then "0 (" + NoneShown + ")" else "1 (" + Quoted(downloaded[0]) + ")"
  {
    if downloaded != [] {
      assert QuoteAll(downloaded) == [Quoted(downloaded[0])];
    }
  }

  /**
   * For the entries `parse_input` yields, the rows come in strictly
   * increasing line order (so sorting them by line changes nothing), each
   * row's line cell reading back as its entry's line number.
   */
  lemma RowsInLineOrder(lines: seq<string>, log: Log, j: nat, k: nat)
    requires j < k < |Classified(lines)|
    ensures var rows := Rows(Classified(lines), log);
      && DigitsValue(rows[j].line) == Classified(lines)[j].lineNum
      && DigitsValue(rows[j].line) < DigitsValue(rows[k].line)
  {
    var entries := Classified(lines);
    ParsedRows(lines, log);
    ClassifiedIncreasing(lines, j, k);
    NatToStringRoundTrip(entries[j].lineNum);
    NatToStringRoundTrip(entries[k].lineNum);
  }
}
