/**
 * Input classification: the input file's lines become entries numbered by
 * their physical line, blank and `#` lines are skipped, and each entry is
 * either a specific song ("Artist - Title") or something else (an artist
 * name or a URL, told apart later by the query builder).
 */
module Entries {
  import opened Text

  /** The tuple `(line_num, text, is_specific_song)` of the source. */
  datatype Entry = Entry(lineNum: nat, text: string, specific: bool)

  /** The hyphen and the en dash that separate artist from title. */
  predicate IsDash(c: char) {
    c == '-' || c == '\U{2013}'
  }

  /** Position `k` of `line` holds a dash with whitespace immediately on both sides. */
  predicate SpacedDashAt(line: string, k: int) {
    1 <= k < |line| - 1 && IsDash(line[k]) && IsSpace(line[k - 1]) && IsSpace(line[k + 1])
  }

  /** Some position from `k` on holds a spaced dash (a left-to-right scan). */
  predicate SpacedDashFrom(line: string, k: nat)
    decreases |line| - k
  {
    k < |line| - 1 && (SpacedDashAt(line, k) || SpacedDashFrom(line, k + 1))
  }

  /**
   * `re.search(r"^.*?\s+[-–]\s+.*?$", line)` on a line that holds no line
   * break (which every line of `SplitLines` is).
   */
  predicate IsSpecificSong(line: string) {
    SpacedDashFrom(line, 1)
  }

  lemma {:induction false} SpacedDashFromIff(line: string, k: nat)
    ensures SpacedDashFrom(line, k) <==> exists p :: k <= p && SpacedDashAt(line, p)
    decreases |line| - k
  {
    if k < |line| - 1 {
      SpacedDashFromIff(line, k + 1);
      if SpacedDashFrom(line, k + 1) {
        var p :| k + 1 <= p && SpacedDashAt(line, p);
        assert k <= p;
      } else if !SpacedDashAt(line, k) {
        forall p | k <= p ensures !SpacedDashAt(line, p) {
          if p > k {
            assert k + 1 <= p;
          }
        }
      }
    }
  }

  /** A line is a specific song exactly when some dash in it has whitespace on both sides. */
  lemma IsSpecificSongIff(line: string)
    ensures IsSpecificSong(line) <==> exists k :: SpacedDashAt(line, k)
  {
    SpacedDashFromIff(line, 1);
  }

  /** A stripped line that yields no entry: blank, or a comment. */
  predicate Skipped(text: string) {
    text == [] || text[0] == '#'
  }

  /** Every line, stripped. */
  function Stripped(lines: seq<string>): (texts: seq<string>)
    ensures |texts| == |lines|
    ensures forall i :: 0 <= i < |lines| ==> texts[i] == Strip(lines[i])
  {
    seq(|lines|, i requires 0 <= i < |lines| => Strip(lines[i]))
  }

  /** The entries that the stripped lines `texts` yield, numbered from 1 by position. */
  function Classify(texts: seq<string>): seq<Entry> {
    if texts == [] then []
    else
      var n := |texts|;
      var text := texts[n - 1];
      Classify(texts[..n - 1]) + (if Skipped(text) then [] else [Entry(n, text, IsSpecificSong(text))])
  }

  /** The entries that `lines` yield: `parse_input`'s result. */
  function Classified(lines: seq<string>): seq<Entry> {
    Classify(Stripped(lines))
  }

  /** What an entry says about the stripped line it came from. */
  predicate FromText(texts: seq<string>, e: Entry) {
    && 1 <= e.lineNum <= |texts|
    && e.text == texts[e.lineNum - 1]
    && !Skipped(e.text)
    && e.specific == IsSpecificSong(e.text)
  }

  lemma {:induction false} ClassifySound(texts: seq<string>, j: nat)
    requires j < |Classify(texts)|
    ensures FromText(texts, Classify(texts)[j])
    decreases |texts|
  {
    var n := |texts|;
    var before := Classify(texts[..n - 1]);
    if j < |before| {
      ClassifySound(texts[..n - 1], j);
      assert Classify(texts)[j] == before[j];
      assert texts[..n - 1][before[j].lineNum - 1] == texts[before[j].lineNum - 1];
    }
  }

  lemma {:induction false} ClassifyIncreasing(texts: seq<string>, j: nat, k: nat)
    requires j < k < |Classify(texts)|
    ensures Classify(texts)[j].lineNum < Classify(texts)[k].lineNum
    decreases |texts|
  {
    var n := |texts|;
    var before := Classify(texts[..n - 1]);
    assert Classify(texts)[j] == before[j];
    if k < |before| {
      ClassifyIncreasing(texts[..n - 1], j, k);
      assert Classify(texts)[k] == before[k];
    } else {
      ClassifySound(texts[..n - 1], j);
    }
  }

  lemma {:induction false} ClassifyComplete(texts: seq<string>, i: nat)
    requires i < |texts| && !Skipped(texts[i])
    ensures exists j :: 0 <= j < |Classify(texts)| && Classify(texts)[j].lineNum == i + 1
    decreases |texts|
  {
    var n := |texts|;
    var before := Classify(texts[..n - 1]);
    if i == n - 1 {
      assert Classify(texts)[|before|].lineNum == n;
    } else {
      assert texts[..n - 1][i] == texts[i];
      ClassifyComplete(texts[..n - 1], i);
      var j :| 0 <= j < |before| && before[j].lineNum == i + 1;
      assert Classify(texts)[j] == before[j];
    }
  }

  /**
   * Each entry is a line that is neither blank nor a comment, stripped, with
   * its 1-based physical line number and its song/artist classification.
   */
  lemma ClassifiedSound(lines: seq<string>, j: nat)
    requires j < |Classified(lines)|
    ensures var e := Classified(lines)[j];
      && 1 <= e.lineNum <= |lines|
      && e.text == Strip(lines[e.lineNum - 1])
      && !Skipped(e.text)
      && e.specific == IsSpecificSong(e.text)
  {
    ClassifySound(Stripped(lines), j);
  }

  /** Line numbers strictly increase along the entries, so no two entries share one. */
  lemma ClassifiedIncreasing(lines: seq<string>, j: nat, k: nat)
    requires j < k < |Classified(lines)|
    ensures Classified(lines)[j].lineNum < Classified(lines)[k].lineNum
  {
    ClassifyIncreasing(Stripped(lines), j, k);
  }

  /** Every line that is neither blank nor a comment yields an entry carrying its line number. */
  lemma ClassifiedComplete(lines: seq<string>, i: nat)
    requires i < |lines| && !Skipped(Strip(lines[i]))
    ensures exists j :: 0 <= j < |Classified(lines)| && Classified(lines)[j].lineNum == i + 1
  {
    var texts := Stripped(lines);
    assert texts[i] == Strip(lines[i]);
    ClassifyComplete(texts, i);
    var j :| 0 <= j < |Classify(texts)| && Classify(texts)[j].lineNum == i + 1;
    assert Classified(lines)[j].lineNum == i + 1;
  }

  /** An entry's text never holds a line break, so the dash scan above is the source's regular expression. */
  lemma ClassifiedTextUnbroken(text: string, j: nat, i: nat)
    requires j < |Classified(SplitLines(text))| && i < |Classified(SplitLines(text))[j].text|
    ensures !IsLineBreak(Classified(SplitLines(text))[j].text[i])
  {
    var lines := SplitLines(text);
    var e := Classified(lines)[j];
    ClassifiedSound(lines, j);
    var n: nat := e.lineNum - 1;
    var line := lines[n];
    forall k | 0 <= k < |line| ensures !IsLineBreak(line[k]) {
      SplitLinesUnbroken(text, n, k);
    }
    StripUnbroken(line);
    assert e.text == Strip(line);
  }

  /**
   * `parse_input` without the file read: walks the lines of `text`, counting
   * every line, and appends an entry for each line that is not skipped.
   */
  method ParseInput(text: string) returns (entries: seq<Entry>)
    ensures entries == Classified(SplitLines(text))
  {
    var lines := SplitLines(text);
    ghost var texts := Stripped(lines);
    entries := [];
    var lineNum := 0;
    while lineNum < |lines|
      invariant 0 <= lineNum <= |lines|
      invariant entries == Classify(texts[..lineNum])
    {
      var line := Strip(lines[lineNum]);
      lineNum := lineNum + 1;
      assert texts[..lineNum][..lineNum - 1] == texts[..lineNum - 1];
      if Skipped(line) {
        continue;
      }
      entries := entries + [Entry(lineNum, line, IsSpecificSong(line))];
    }
    assert texts[..lineNum] == texts;
  }
}
