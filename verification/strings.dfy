/** String helpers with Python semantics: `sep.join`, `str.rfind`,
    `str.strip()`, `re.split(r'\s+', ...)` and `str(int)`. */
module Str {

  /** `sep.join(parts)`. */
  function Join(parts: seq<string>, sep: string): (r: string)
    ensures |parts| == 1 ==> r == parts[0]
    decreases |parts|
  {
    if |parts| == 0 then ""
    else if |parts| == 1 then parts[0]
    else parts[0] + sep + Join(parts[1..], sep)
  }

  /** `words[0] + seps[0] + words[1] + ... + words[n - 1]`: the words with
      a separator of their own between each neighbouring pair. */
  function Interleave(words: seq<string>, seps: seq<string>): string
    requires |words| >= 1 && |seps| == |words| - 1
    decreases |words|
  {
    if |words| == 1 then words[0] else words[0] + seps[0] + Interleave(words[1..], seps[1..])
  }

  // ---------------------------------------------------------------------
  // Substring search

  /** `pat` occurs in `s` starting at index `i`. */
  predicate OccursAt(s: string, pat: string, i: int)
  {
    0 <= i && i + |pat| <= |s| && s[i..i + |pat|] == pat
  }

  /** Highest index `j <= i` at which `pat` occurs, or -1. */
  function RFindUpTo(s: string, pat: string, i: int): (r: int)
    requires i >= -1
    ensures -1 <= r <= i
    ensures r >= 0 ==> OccursAt(s, pat, r)
    ensures forall j :: r < j <= i ==> !OccursAt(s, pat, j)
    decreases i + 1
  {
    if i < 0 then -1
    else if OccursAt(s, pat, i) then i
    else RFindUpTo(s, pat, i - 1)
  }

  /** `s.rfind(pat)`: the index of the last occurrence of `pat`, or -1 when
      `pat in s` is false. */
  function RFind(s: string, pat: string): (r: int)
    ensures r == -1 <==> forall j :: !OccursAt(s, pat, j)
    ensures r >= 0 ==> OccursAt(s, pat, r) && forall j :: r < j ==> !OccursAt(s, pat, j)
  {
    RFindUpTo(s, pat, |s|)
  }

  // ---------------------------------------------------------------------
  // Whitespace

  /** The characters Python's `str.isspace()` accepts; `str.strip()` and the
      regular expression `\s` on `str` patterns both use this set. */
  predicate IsSpace(c: char)
  {
    || c == ' '
    || '\t' <= c <= '\r'
    || '\U{1C}' <= c <= '\U{1F}'
    || c == '\U{85}' || c == '\U{A0}' || c == '\U{1680}'
    || '\U{2000}' <= c <= '\U{200A}'
    || c == '\U{2028}' || c == '\U{2029}' || c == '\U{202F}' || c == '\U{205F}' || c == '\U{3000}'
  }

  predicate AllSpaces(s: string)
  {
    forall i :: 0 <= i < |s| ==> IsSpace(s[i])
  }

  predicate NoSpaces(s: string)
  {
    forall i :: 0 <= i < |s| ==> !IsSpace(s[i])
  }

  /** Length of the leading whitespace run of `s`. */
  function LeadingSpaces(s: string): (n: nat)
    ensures n <= |s| && AllSpaces(s[..n])
    ensures n < |s| ==> !IsSpace(s[n])
    decreases |s|
  {
    if |s| == 0 || !IsSpace(s[0]) then 0
    else
      var n := LeadingSpaces(s[1..]);
      assert s[..n + 1] == [s[0]] + s[1..][..n];
      n + 1
  }

  /** The leading run is the one a prefix of spaces followed by a non-space
      (or the end) marks. */
  lemma {:induction false} LeadingSpacesAt(s: string, n: nat)
    requires n <= |s| && AllSpaces(s[..n]) && (n < |s| ==> !IsSpace(s[n]))
    ensures LeadingSpaces(s) == n
    decreases n
  {
    if n > 0 {
      assert IsSpace(s[..n][0]);
      assert s[1..][..n - 1] == s[1..n];
      LeadingSpacesAt(s[1..], n - 1);
    }
  }

  /** Start of the trailing whitespace run of `s`. */
  function TrailingStart(s: string): (n: nat)
    ensures n <= |s| && AllSpaces(s[n..])
    ensures n > 0 ==> !IsSpace(s[n - 1])
    decreases |s|
  {
    if |s| == 0 || !IsSpace(s[|s| - 1]) then |s|
    else
      var t := s[..|s| - 1];
      var n := TrailingStart(t);
      assert s[n..] == t[n..] + [s[|s| - 1]];
      AllSpacesAppend(t[n..], s[|s| - 1]);
      assert n > 0 ==> s[n - 1] == t[n - 1];
      n
  }

  lemma AllSpacesAppend(a: string, c: char)
    requires AllSpaces(a) && IsSpace(c)
    ensures AllSpaces(a + [c])
  {
    assert forall i :: 0 <= i < |a| ==> (a + [c])[i] == a[i];
  }

  /** The trailing run is the one a non-space (or the start) followed by a
      suffix of spaces marks. */
  lemma {:induction false} TrailingStartAt(s: string, n: nat)
    requires n <= |s| && AllSpaces(s[n..]) && (n > 0 ==> !IsSpace(s[n - 1]))
    ensures TrailingStart(s) == n
    decreases |s| - n
  {
    if n < |s| {
      var t := s[..|s| - 1];
      assert IsSpace(s[n..][|s| - 1 - n]);
      assert t[n..] == s[n..][..|s| - 1 - n];
      TrailingStartAt(t, n);
    }
  }

  /** `s.lstrip()`: drops the leading whitespace run. */
  function LStrip(s: string): (r: string)
    ensures |r| <= |s| && r == s[|s| - |r|..]
    ensures AllSpaces(s[..|s| - |r|])
    ensures r != [] ==> !IsSpace(r[0])
  {
    s[LeadingSpaces(s)..]
  }

  /** `s.rstrip()`: drops the trailing whitespace run. */
  function RStrip(s: string): (r: string)
    ensures |r| <= |s| && r == s[..|r|]
    ensures AllSpaces(s[|r|..])
    ensures r != [] ==> !IsSpace(r[|r| - 1])
  {
    s[..TrailingStart(s)]
  }

  /** `s.strip()`: blank input strips to "", anything else to a string that
      starts and ends with a non-space character. */
  function Strip(s: string): (r: string)
    ensures r == [] <==> AllSpaces(s)
    ensures r != [] ==> !IsSpace(r[0]) && !IsSpace(r[|r| - 1])
  {
    LStripEmptyIffBlank(s);
    RStripEmptyIffBlank(LStrip(s));
    RStrip(LStrip(s))
  }

  lemma LStripEmptyIffBlank(s: string)
    ensures LStrip(s) == [] <==> AllSpaces(s)
  {
    assert s[..|s|] == s;
  }

  lemma RStripEmptyIffBlank(s: string)
    ensures RStrip(s) == [] <==> AllSpaces(s)
  {
    assert s[0..] == s;
  }

  /** Index of the first whitespace character of `s`, or `|s|` when none. */
  function FirstSpace(s: string): (i: nat)
    ensures i <= |s|
    ensures NoSpaces(s[..i])
    ensures i < |s| ==> IsSpace(s[i])
    decreases |s|
  {
    if |s| == 0 || IsSpace(s[0]) then 0 else 1 + FirstSpace(s[1..])
  }

  /** `re.split(r'\s+', s)`: the pieces between maximal whitespace runs.
      A leading or trailing run yields an empty first or last piece and the
      empty string yields `[""]`, as Python's `re.split` does. */
  function SplitSpaces(s: string): (r: seq<string>)
    ensures |r| >= 1
    decreases |s|
  {
    var i := FirstSpace(s);
    if i == |s| then [s]
    else [s[..i]] + SplitSpaces(LStrip(s[i..]))
  }

  // ---------------------------------------------------------------------
  // Decimal rendering of integers

  function DigitChar(d: nat): (c: char)
    requires d < 10
    ensures '0' <= c <= '9'
  {
    "0123456789"[d]
  }

  function DigitValue(c: char): nat
  {
    if '0' <= c <= '9' then (c as int - '0' as int) else 0
  }

  predicate IsDigits(s: string)
  {
    forall i :: 0 <= i < |s| ==> '0' <= s[i] <= '9'
  }

  /** `str(n)` for a natural number: shortest decimal form. */
  function NatToString(n: nat): (r: string)
    ensures |r| >= 1 && IsDigits(r)
    ensures r[0] == '0' ==> n == 0
    decreases n
  {
    if n < 10 then [DigitChar(n)] else NatToString(n / 10) + [DigitChar(n % 10)]
  }

  /** `str(n)` for a Python `int`. */
  function IntToString(n: int): (r: string)
  {
    if n < 0 then "-" + NatToString(-n) else NatToString(n)
  }

  /** `int(s)` for a string of decimal digits. */
  function ParseDigits(s: string): nat
    decreases |s|
  {
    if |s| == 0 then 0 else ParseDigits(s[..|s| - 1]) * 10 + DigitValue(s[|s| - 1])
  }

  /** `int(str(n))`, for any integer. */
  function ParseInt(s: string): int
  {
    if |s| > 0 && s[0] == '-' then -(ParseDigits(s[1..]) as int) else ParseDigits(s)
  }

  // ---------------------------------------------------------------------
  // Laws

  /** Splitting a stripped, non-blank string yields the words of the input:
      each piece is non-empty and holds no whitespace. */
  lemma {:induction false} SplitStrippedWords(s: string)
    requires s != [] && !IsSpace(s[0]) && !IsSpace(s[|s| - 1])
    ensures forall k :: 0 <= k < |SplitSpaces(s)| ==> SplitSpaces(s)[k] != [] && NoSpaces(SplitSpaces(s)[k])
    decreases |s|
  {
    var i := FirstSpace(s);
    if i == |s| {
      assert s[..i] == s;
    } else {
      var rest := SplitRest(s, i);
      SplitStrippedWords(rest);
      ConsWords(s[..i], SplitSpaces(rest));
    }
  }

  /** What follows the first whitespace run of a string that ends in a
      non-space character is again a stripped, non-blank string. */
  lemma SplitRest(s: string, i: nat) returns (rest: string)
    requires s != [] && !IsSpace(s[0]) && !IsSpace(s[|s| - 1])
    requires i == FirstSpace(s) < |s|
    ensures rest == LStrip(s[i..]) && |rest| < |s|
    ensures rest != [] && !IsSpace(rest[0]) && !IsSpace(rest[|rest| - 1])
    ensures SplitSpaces(s) == [s[..i]] + SplitSpaces(rest)
    ensures s[..i] != [] && NoSpaces(s[..i])
  {
    var tail := s[i..];
    rest := LStrip(tail);
    LStripEmptyIffBlank(tail);
    assert !IsSpace(tail[|tail| - 1]);
    assert rest[|rest| - 1] == tail[|tail| - 1];
  }

  lemma ConsWords(w: string, ws: seq<string>)
    requires w != [] && NoSpaces(w)
    requires forall k :: 0 <= k < |ws| ==> ws[k] != [] && NoSpaces(ws[k])
    ensures forall k :: 0 <= k < |[w] + ws| ==> ([w] + ws)[k] != [] && NoSpaces(([w] + ws)[k])
  {
    forall k | 0 <= k < |[w] + ws|
      ensures ([w] + ws)[k] != [] && NoSpaces(([w] + ws)[k])
    {
      if k > 0 {
        assert ([w] + ws)[k] == ws[k - 1];
      }
    }
  }

  lemma {:induction false} FirstSpaceAt(s: string, i: nat)
    requires i <= |s| && NoSpaces(s[..i]) && (i < |s| ==> IsSpace(s[i]))
    ensures FirstSpace(s) == i
    decreases i
  {
    if i > 0 {
      assert !IsSpace(s[..i][0]);
      assert s[1..][..i - 1] == s[1..i];
      FirstSpaceAt(s[1..], i - 1);
    }
  }

  /** Every word is non-empty and holds no whitespace. */
  predicate Words(words: seq<string>)
  {
    forall k :: 0 <= k < |words| ==> words[k] != [] && NoSpaces(words[k])
  }

  /** Every separator is a non-empty run of whitespace. */
  predicate Separators(seps: seq<string>)
  {
    forall k :: 0 <= k < |seps| ==> seps[k] != [] && AllSpaces(seps[k])
  }

  /** Words separated by any non-empty whitespace runs split back into
      exactly those words: the splitter collapses each run, whatever its
      length and characters. */
  lemma {:induction false} SplitJoinRoundTrip(words: seq<string>, seps: seq<string>)
    requires |words| >= 1 && |seps| == |words| - 1
    requires Words(words) && Separators(seps)
    ensures SplitSpaces(Interleave(words, seps)) == words
    decreases |words|
  {
    var w := words[0];
    if |words| == 1 {
      assert w[..|w|] == w;
      FirstSpaceAt(w, |w|);
    } else {
      var tail := words[1..];
      WordsTail(words);
      SeparatorsTail(seps);
      SplitJoinRoundTrip(tail, seps[1..]);
      SplitJoinStep(w, seps[0], tail, seps[1..]);
      assert words == [w] + tail;
      assert seps == [seps[0]] + seps[1..];
    }
  }

  lemma WordsTail(words: seq<string>)
    requires |words| >= 1 && Words(words)
    ensures Words(words[1..])
  {
    assert forall k :: 0 <= k < |words| - 1 ==> words[1..][k] == words[k + 1];
  }

  lemma SeparatorsTail(seps: seq<string>)
    requires |seps| >= 1 && Separators(seps)
    ensures Separators(seps[1..])
  {
    assert forall k :: 0 <= k < |seps| - 1 ==> seps[1..][k] == seps[k + 1];
  }

  /** One word and separator more in front of an interleaved list split off
      as one piece. */
  lemma SplitJoinStep(w: string, sep: string, tail: seq<string>, seps: seq<string>)
    requires w != [] && NoSpaces(w) && sep != [] && AllSpaces(sep)
    requires |tail| >= 1 && |seps| == |tail| - 1 && tail[0] != []
    requires SplitSpaces(Interleave(tail, seps)) == tail
    ensures SplitSpaces(Interleave([w] + tail, [sep] + seps)) == [w] + tail
  {
    var ws := [w] + tail;
    var ss := [sep] + seps;
    assert ws[1..] == tail && ss[1..] == seps;
    assert Interleave(ws, ss) == w + sep + Interleave(tail, seps);
    JoinStartsWithWord(tail, seps);
    SplitAfterWord(w, sep, Interleave(tail, seps));
  }

  lemma SplitAfterWord(w: string, sep: string, j: string)
    requires w != [] && NoSpaces(w) && sep != [] && AllSpaces(sep)
    requires j != [] && !IsSpace(j[0])
    ensures SplitSpaces(w + sep + j) == [w] + SplitSpaces(j)
  {
    var s := w + sep + j;
    SpacedParts(w, sep, j);
    FirstSpaceAt(s, |w|);
    LStripSpaceThenWord(sep, j);
    SplitAtFirstSpace(s, |w|, j);
  }

  lemma SpacedParts(w: string, sep: string, j: string)
    requires sep != []
    ensures (w + sep + j)[..|w|] == w
    ensures (w + sep + j)[|w|] == sep[0]
    ensures (w + sep + j)[|w|..] == sep + j
  {
  }

  lemma SplitAtFirstSpace(s: string, i: nat, j: string)
    requires i < |s| && FirstSpace(s) == i && LStrip(s[i..]) == j
    ensures SplitSpaces(s) == [s[..i]] + SplitSpaces(j)
  {
  }

  lemma LStripSpaceThenWord(sep: string, j: string)
    requires AllSpaces(sep)
    requires j != [] && !IsSpace(j[0])
    ensures LStrip(sep + j) == j
  {
    var tail := sep + j;
    assert tail[..|sep|] == sep;
    LeadingSpacesAt(tail, |sep|);
    assert tail[|sep|..] == j;
  }

  lemma {:induction false} JoinStartsWithWord(words: seq<string>, seps: seq<string>)
    requires |words| >= 1 && |seps| == |words| - 1 && words[0] != []
    ensures Interleave(words, seps) != [] && Interleave(words, seps)[0] == words[0][0]
  {
    if |words| > 1 {
      assert Interleave(words, seps) == words[0] + seps[0] + Interleave(words[1..], seps[1..]);
    }
  }

  lemma DigitRoundTrip(d: nat)
    requires d < 10
    ensures DigitValue(DigitChar(d)) == d
  {
  }

  /** `int(str(n)) == n`: the decimal rendering loses nothing. */
  lemma {:induction false} DecimalRoundTrip(n: int)
    ensures ParseInt(IntToString(n)) == n
  {
    if n < 0 {
      var d := NatToString(-n);
      var s := "-" + d;
      assert IntToString(n) == s;
      assert s[1..] == d;
      NatDecimalRoundTrip(-n);
    } else {
      var d := NatToString(n);
      assert d[0] != '-';
      NatDecimalRoundTrip(n);
    }
  }

  lemma {:induction false} NatDecimalRoundTrip(n: nat)
    ensures ParseDigits(NatToString(n)) == n
    decreases n
  {
    if n < 10 {
      DigitRoundTrip(n);
      assert [DigitChar(n)][..0] == [];
    } else {
      var prefix := NatToString(n / 10);
      var r := prefix + [DigitChar(n % 10)];
      assert r[..|r| - 1] == prefix;
      NatDecimalRoundTrip(n / 10);
      DigitRoundTrip(n % 10);
    }
  }
}
