/**
 * The string primitives the downloader relies on: Python's notion of
 * whitespace, lower-casing, `str.strip`, `str.splitlines`, substring search,
 * `", ".join` and the decimal rendering of integers.
 */
module Text {

  /** `str.isspace()`, which is also what `\s` matches in a `str` pattern. */
  predicate IsSpace(c: char) {
    || c == ' '
    || ('\t' <= c <= '\r')
    || ('\U{1C}' <= c <= '\U{1F}')
    || c == '\U{85}' || c == '\U{A0}' || c == '\U{1680}'
    || ('\U{2000}' <= c <= '\U{200A}')
    || c == '\U{2028}' || c == '\U{2029}' || c == '\U{202F}' || c == '\U{205F}' || c == '\U{3000}'
  }

  /** The characters at which `str.splitlines()` ends a line. */
  predicate IsLineBreak(c: char) {
    || ('\n' <= c <= '\r')
    || ('\U{1C}' <= c <= '\U{1E}')
    || c == '\U{85}' || c == '\U{2028}' || c == '\U{2029}'
  }

  /** `\d`, restricted to the ASCII digits. */
  predicate IsDigit(c: char) {
    '0' <= c <= '9'
  }

  predicate AllDigits(s: string) {
    forall i :: 0 <= i < |s| ==> IsDigit(s[i])
  }

  /**
   * `\w`: letters, digits and the underscore, as far as Latin-1 goes
   * (ASCII, the Latin-1 letters, the ordinal indicators, micro sign,
   * superscript digits and vulgar fractions, which Python counts as numeric).
   */
  predicate IsWordChar(c: char) {
    || ('a' <= c <= 'z') || ('A' <= c <= 'Z') || ('0' <= c <= '9') || c == '_'
    || c == '\U{AA}' || c == '\U{B2}' || c == '\U{B3}' || c == '\U{B5}' || c == '\U{B9}' || c == '\U{BA}'
    || ('\U{BC}' <= c <= '\U{BE}')
    || ('\U{C0}' <= c <= '\U{FF}' && c != '\U{D7}' && c != '\U{F7}')
  }

  /** `str.lower()` on one character, for ASCII and Latin-1 capitals. */
  function LowerChar(c: char): (d: char)
    ensures IsSpace(d) == IsSpace(c) && IsWordChar(d) == IsWordChar(c) && IsLineBreak(d) == IsLineBreak(c)
    ensures ('a' <= d <= 'z') ==> ('a' <= c <= 'z' || 'A' <= c <= 'Z')
    ensures !('A' <= c <= 'Z') && !('\U{C0}' <= c <= '\U{DE}') ==> d == c
  {
    if ('A' <= c <= 'Z') || ('\U{C0}' <= c <= '\U{DE}' && c != '\U{D7}') then (c as int + 32) as char else c
  }

  lemma LowerCharIdempotent(c: char)
    ensures LowerChar(LowerChar(c)) == LowerChar(c)
  {
  }

  function Lower(s: string): (r: string)
    ensures |r| == |s|
    ensures forall i :: 0 <= i < |s| ==> r[i] == LowerChar(s[i])
  {
    seq(|s|, i requires 0 <= i < |s| => LowerChar(s[i]))
  }

  lemma LowerIdempotent(s: string)
    ensures Lower(Lower(s)) == Lower(s)
  {
    forall i | 0 <= i < |s| ensures Lower(Lower(s))[i] == Lower(s)[i] {
      LowerCharIdempotent(s[i]);
    }
  }

  lemma LowerAppend(a: string, b: string)
    ensures Lower(a + b) == Lower(a) + Lower(b)
  {
  }

  /** The first position at or after `k` that does not hold whitespace (or `|s|`). */
  function StartFrom(s: string, k: nat): (i: nat)
    requires k <= |s|
    ensures k <= i <= |s|
    ensures forall j :: k <= j < i ==> IsSpace(s[j])
    ensures i < |s| ==> !IsSpace(s[i])
    decreases |s| - k
  {
    if k < |s| && IsSpace(s[k]) then StartFrom(s, k + 1) else k
  }

  /** The start of the run of whitespace that ends just before position `k`. */
  function EndBefore(s: string, k: nat): (i: nat)
    requires k <= |s|
    ensures i <= k
    ensures forall j :: i <= j < k ==> IsSpace(s[j])
    ensures i > 0 ==> !IsSpace(s[i - 1])
  {
    if k > 0 && IsSpace(s[k - 1]) then EndBefore(s, k - 1) else k
  }

  /** `s.rstrip()`. */
  function TrimEnd(s: string): string {
    s[..EndBefore(s, |s|)]
  }

  /** `s.strip()`: `s` without its leading and trailing whitespace. */
  function Strip(s: string): string {
    var a := StartFrom(s, 0);
    var b := EndBefore(s, |s|);
    if a < b then s[a..b] else []
  }

  /** A stripped string neither starts nor ends with whitespace, and it is empty exactly when `s` is all whitespace. */
  lemma StripEnds(s: string)
    ensures Strip(s) != [] ==> !IsSpace(Strip(s)[0]) && !IsSpace(Strip(s)[|Strip(s)| - 1])
    ensures Strip(s) == [] <==> forall j :: 0 <= j < |s| ==> IsSpace(s[j])
  {
  }

  /** The whitespace run before `k` depends only on the characters before `k`. */
  lemma {:induction false} EndBeforePrefix(s: string, t: string, k: nat)
    requires k <= |s| && k <= |t| && s[..k] == t[..k]
    ensures EndBefore(s, k) == EndBefore(t, k)
    decreases k
  {
    if k > 0 {
      assert s[k - 1] == s[..k][k - 1] == t[..k][k - 1] == t[k - 1];
      assert s[..k - 1] == s[..k][..k - 1];
      assert t[..k - 1] == t[..k][..k - 1];
      EndBeforePrefix(s, t, k - 1);
    }
  }

  /** Skipping whitespace from `k` lands where skipping it from any position inside the run lands. */
  lemma {:induction false} StartFromPrefix(s: string, t: string, k: nat, n: nat)
    requires k <= n <= |s| && n <= |t| && s[..n] == t[..n]
    requires StartFrom(s, k) < n
    ensures StartFrom(s, k) == StartFrom(t, k)
    decreases |s| - k
  {
    assert s[k] == s[..n][k] == t[..n][k] == t[k];
    if IsSpace(s[k]) {
      StartFromPrefix(s, t, k + 1, n);
    }
  }

  /** Whitespace appended to a string disappears again when it is stripped. */
  lemma StripPadded(a: string, w: string)
    requires forall j :: 0 <= j < |w| ==> IsSpace(w[j])
    ensures Strip(a + w) == Strip(a)
  {
    var s := a + w;
    assert s[..|a|] == a[..|a|];
    EndBeforePrefix(s, a, |a|);
    assert EndBefore(s, |s|) == EndBefore(s, |a|) by {
      EndBeforeSkips(s, |a|, |s|);
    }
    if StartFrom(a, 0) < EndBefore(a, |a|) {
      StartFromPrefix(a, s, 0, |a|);
      assert s[StartFrom(a, 0)..EndBefore(a, |a|)] == a[StartFrom(a, 0)..EndBefore(a, |a|)];
    } else {
      assert forall j :: 0 <= j < |a| ==> IsSpace(a[j]);
      assert forall j :: 0 <= j < |s| ==> IsSpace(s[j]);
    }
  }

  /** When the positions between `k` and `n` are whitespace, the run before `n` starts where the run before `k` does. */
  lemma {:induction false} EndBeforeSkips(s: string, k: nat, n: nat)
    requires k <= n <= |s|
    requires forall j :: k <= j < n ==> IsSpace(s[j])
    ensures EndBefore(s, n) == EndBefore(s, k)
    decreases n - k
  {
    if k < n {
      EndBeforeSkips(s, k, n - 1);
    }
  }

  /** What `strip` keeps is one piece of the original string between two positions. */
  lemma StripSlice(s: string)
    ensures exists a, b :: 0 <= a <= b <= |s| && Strip(s) == s[a..b]
  {
    var a := StartFrom(s, 0);
    var b := EndBefore(s, |s|);
    if a < b {
      assert Strip(s) == s[a..b];
    } else {
      assert Strip(s) == s[0..0];
    }
  }

  /** A string without line breaks stays without them once stripped. */
  lemma StripUnbroken(s: string)
    requires forall j :: 0 <= j < |s| ==> !IsLineBreak(s[j])
    ensures forall j :: 0 <= j < |Strip(s)| ==> !IsLineBreak(Strip(s)[j])
  {
    StripSlice(s);
    var a, b :| 0 <= a <= b <= |s| && Strip(s) == s[a..b];
    forall j | 0 <= j < |Strip(s)| ensures !IsLineBreak(Strip(s)[j]) {
      assert Strip(s)[j] == s[a + j];
    }
  }

  /** Index of the first line break of `s`, or `|s|` when there is none. */
  function BreakIndex(s: string): (i: nat)
    ensures i <= |s|
    ensures forall j :: 0 <= j < i ==> !IsLineBreak(s[j])
    ensures i < |s| ==> IsLineBreak(s[i])
  {
    if s == [] || IsLineBreak(s[0]) then 0 else 1 + BreakIndex(s[1..])
  }

  /** Where the second line of `s` starts: past the first terminator, "\r\n" counting as one. */
  function NextStart(s: string): (n: nat)
    requires s != []
    ensures BreakIndex(s) < n <= |s| + 1
    ensures BreakIndex(s) < |s| && s[BreakIndex(s)] == '\n' ==> n == BreakIndex(s) + 1
  {
    var i := BreakIndex(s);
    if i + 1 < |s| && s[i] == '\r' && s[i + 1] == '\n' then i + 2 else i + 1
  }

  /**
   * `str.splitlines()`: the lines of `s` without their terminators; "\r\n"
   * ends one line, and a final terminator does not start an empty line.
   */
  function SplitLines(s: string): seq<string>
    decreases |s|
  {
    if s == [] then []
    else
      var next := NextStart(s);
      [s[..BreakIndex(s)]] + SplitLines(if next <= |s| then s[next..] else [])
  }

  /** No line that `SplitLines` yields holds a line break. */
  lemma {:induction false} SplitLinesUnbroken(s: string, k: nat, j: nat)
    requires k < |SplitLines(s)| && j < |SplitLines(s)[k]|
    ensures !IsLineBreak(SplitLines(s)[k][j])
    decreases |s|
  {
    var i := BreakIndex(s);
    var next := NextStart(s);
    var rest := if next <= |s| then s[next..] else [];
    assert SplitLines(s) == [s[..i]] + SplitLines(rest);
    if k == 0 {
      assert SplitLines(s)[0][j] == s[j];
    } else {
      assert SplitLines(s)[k] == SplitLines(rest)[k - 1];
      SplitLinesUnbroken(rest, k - 1, j);
    }
  }

  /** Every line followed by "\n", concatenated. */
  function Terminated(lines: seq<string>): string {
    if lines == [] then [] else lines[0] + "\n" + Terminated(lines[1..])
  }

  /** A line ended by "\n" is split off the front. */
  lemma SplitLinesStep(s: string)
    requires BreakIndex(s) < |s| && s[BreakIndex(s)] == '\n'
    ensures SplitLines(s) == [s[..BreakIndex(s)]] + SplitLines(s[BreakIndex(s) + 1..])
  {
    var next := NextStart(s);
    var rest := if next <= |s| then s[next..] else [];
    assert rest == s[BreakIndex(s) + 1..];
  }

  /** Text with no line break is one line. */
  lemma SplitLinesLast(s: string)
    requires s != [] && BreakIndex(s) == |s|
    ensures SplitLines(s) == [s]
  {
    assert NextStart(s) == |s| + 1;
    assert SplitLines(s) == [s[..BreakIndex(s)]] + SplitLines([]);
    assert s[..BreakIndex(s)] == s;
  }

  /** A string is what comes before position `i`, the character there, and what follows. */
  lemma SplitAround(s: string, i: nat)
    requires i < |s|
    ensures s == s[..i] + [s[i]] + s[i + 1..]
  {
  }

  /** Terminating a line followed by more lines. */
  lemma TerminatedCons(line: string, lines: seq<string>)
    ensures Terminated([line] + lines) == line + "\n" + Terminated(lines)
  {
    assert ([line] + lines)[1..] == lines;
  }

  /** The only line terminator in `s`, if any, is "\n". */
  predicate LfOnly(s: string) {
    forall j :: 0 <= j < |s| && IsLineBreak(s[j]) ==> s[j] == '\n'
  }

  /** Terminating one line ended by "\n" in front of the round trip of the rest. */
  lemma TerminatedAfterBreak(s: string, i: nat)
    requires i < |s| && s[i] == '\n'
    requires SplitLines(s) == [s[..i]] + SplitLines(s[i + 1..])
    requires var rest := s[i + 1..];
      Terminated(SplitLines(rest)) == if rest == [] || rest[|rest| - 1] == '\n' then rest else rest + "\n"
    ensures Terminated(SplitLines(s)) == if s[|s| - 1] == '\n' then s else s + "\n"
  {
    var rest := s[i + 1..];
    TerminatedCons(s[..i], SplitLines(rest));
    SplitAround(s, i);
    var head := s[..i] + "\n";
    assert s == head + rest;
    assert Terminated(SplitLines(s)) == head + Terminated(SplitLines(rest));
    if rest == [] || rest[|rest| - 1] == '\n' {
      assert s[|s| - 1] == '\n';
    } else {
      assert s[|s| - 1] == rest[|rest| - 1];
      assert head + (rest + "\n") == (head + rest) + "\n";
    }
  }

  /**
   * For text whose only line terminator is "\n", splitting and terminating
   * every line again gives back the text, plus a final "\n" if it lacked one.
   */
  lemma {:induction false} SplitLinesRoundTrip(s: string)
    requires LfOnly(s)
    ensures Terminated(SplitLines(s)) == if s == [] || s[|s| - 1] == '\n' then s else s + "\n"
    decreases |s|
  {
    if s != [] {
      var i := BreakIndex(s);
      if i < |s| {
        var rest := s[i + 1..];
        forall j | 0 <= j < |rest| && IsLineBreak(rest[j]) ensures rest[j] == '\n' {
          assert rest[j] == s[i + 1 + j];
        }
        SplitLinesRoundTrip(rest);
        SplitLinesStep(s);
        TerminatedAfterBreak(s, i);
      } else {
        SplitLinesLast(s);
        TerminatedCons(s, []);
      }
    }
  }

  function DigitChar(d: nat): (c: char)
    requires d < 10
    ensures IsDigit(c)
  {
    ('0' as int + d) as char
  }

  /** `str(n)` for a natural number `n`: its decimal digits, most significant first. */
  function NatToString(n: nat): (r: string)
    ensures r != [] && AllDigits(r)
    decreases n
  {
    if n < 10 then [DigitChar(n)] else NatToString(n / 10) + [DigitChar(n % 10)]
  }

  /** `str(i)` for any integer: a minus sign before the digits of a negative number. */
  function IntToString(i: int): (r: string)
    ensures i >= 0 ==> r == NatToString(i)
    ensures i < 0 ==> r == "-" + NatToString(-i)
  {
    if i < 0 then "-" + NatToString(-i) else NatToString(i)
  }

  /** The number a string of decimal digits denotes. */
  function DigitsValue(s: string): nat
    requires AllDigits(s)
  {
    if s == [] then 0 else 10 * DigitsValue(s[..|s| - 1]) + (s[|s| - 1] as int - '0' as int)
  }

  /** Reading back the decimal rendering of `n` gives `n`. */
  lemma {:induction false} NatToStringRoundTrip(n: nat)
    ensures DigitsValue(NatToString(n)) == n
    decreases n
  {
    if n >= 10 {
      var s := NatToString(n);
      assert s[..|s| - 1] == NatToString(n / 10);
      NatToStringRoundTrip(n / 10);
    }
  }

  /** `sub in s` for strings. */
  predicate Contains(s: string, sub: string) {
    exists i :: 0 <= i <= |s| - |sub| && OccursAt(s, i, sub)
  }

  predicate OccursAt(s: string, i: int, sub: string) {
    0 <= i <= |s| - |sub| && s[i..i + |sub|] == sub
  }

  /** `sep.join(items)`. */
  function Join(items: seq<string>, sep: string): string {
    if items == [] then []
    else if |items| == 1 then items[0]
    else items[0] + sep + Join(items[1..], sep)
  }
}
