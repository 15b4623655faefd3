/**
 * The Python `str` operations the reservation handlers apply to form input:
 * `strip`, `upper`, `lower`, `split`/`join`, `isdigit` and `<`.
 */
module Text {
  import opened Wrappers

  /** Python's `str.isspace` for one character. */
  predicate IsSpace(c: char) {
    || c == ' '
    || '\t' <= c <= '\r'
    || '\U{1c}' <= c <= '\U{1f}'
    || c == '\U{85}' || c == '\U{a0}' || c == '\U{1680}'
    || '\U{2000}' <= c <= '\U{200a}'
    || c == '\U{2028}' || c == '\U{2029}' || c == '\U{202f}'
    || c == '\U{205f}' || c == '\U{3000}'
  }

  /** `x or ""` for a value that may be None. */
  function OrEmpty(x: Option<string>): (s: string)
    ensures x.Some? ==> s == x.value
    ensures x.None? ==> s == ""
  {
    x.GetOr("")
  }

  /** `str.lstrip()`: drops the leading whitespace and nothing else. */
  function LStrip(s: string): (r: string)
    ensures |r| <= |s| && r == s[|s| - |r|..]
    ensures r == [] || !IsSpace(r[0])
    ensures forall i :: 0 <= i < |s| - |r| ==> IsSpace(s[i])
  {
    if s != [] && IsSpace(s[0]) then
      var r := LStrip(s[1..]);
      assert s[|s| - |r|..] == s[1..][|s| - 1 - |r|..];
      assert forall i :: 1 <= i < |s| - |r| ==> s[i] == s[1..][i - 1];
      r
    else s
  }

  /** `str.rstrip()`: drops the trailing whitespace and nothing else. */
  function RStrip(s: string): (r: string)
    ensures |r| <= |s| && r == s[..|r|]
    ensures r == [] || !IsSpace(r[|r| - 1])
    ensures forall i :: |r| <= i < |s| ==> IsSpace(s[i])
  {
    if s != [] && IsSpace(s[|s| - 1]) then RStrip(s[..|s| - 1]) else s
  }

  /** `str.strip()`. */
  function Strip(s: string): (r: string)
    ensures |r| <= |s|
    ensures r == [] || (!IsSpace(r[0]) && !IsSpace(r[|r| - 1]))
    ensures r == [] <==> forall i :: 0 <= i < |s| ==> IsSpace(s[i])
  {
    var l := LStrip(s);
    var r := RStrip(l);
    r
  }

  /** A string is already stripped when it neither starts nor ends with whitespace. */
  predicate Trimmed(s: string) {
    s == [] || (!IsSpace(s[0]) && !IsSpace(s[|s| - 1]))
  }

  /** A text input as the handlers read it, `(x or "").strip()`. */
  function Trim(x: Option<string>): string {
    Strip(OrEmpty(x))
  }

  /**
   * A read input is trimmed, empty exactly when the input is absent or all
   * whitespace, and otherwise the input without its surrounding whitespace.
   */
  lemma TrimNormalised(x: Option<string>, lead: string, core: string, trail: string)
    ensures Trimmed(Trim(x))
    ensures Trim(x) == "" <==> Blank(OrEmpty(x))
    ensures OrEmpty(x) == lead + core + trail && Blank(lead) && Trimmed(core) && Blank(trail) ==> Trim(x) == core
  {
    if OrEmpty(x) == lead + core + trail && Blank(lead) && Trimmed(core) && Blank(trail) {
      StripExact(lead, core, trail);
    }
  }

  /** No lower-case ASCII letter. */
  predicate NoLower(s: string) {
    forall i :: 0 <= i < |s| ==> !('a' <= s[i] <= 'z')
  }

  /** No upper-case ASCII letter. */
  predicate NoUpper(s: string) {
    forall i :: 0 <= i < |s| ==> !('A' <= s[i] <= 'Z')
  }

  lemma UpperNoLower(s: string)
    ensures NoLower(Upper(s))
  {
  }

  lemma LowerNoUpper(s: string)
    ensures NoUpper(Lower(s))
  {
  }

  /** Changing case keeps a trimmed string trimmed. */
  lemma CaseKeepsTrimmed(s: string)
    requires Trimmed(s)
    ensures Trimmed(Upper(s)) && Trimmed(Lower(s))
  {
    if s != [] {
      CaseKeepsSpace(s[0]);
      CaseKeepsSpace(s[|s| - 1]);
    }
  }

  lemma StripTrimmed(s: string)
    requires Trimmed(s)
    ensures Strip(s) == s
  {
  }

  /**
   * `strip()` removes exactly the surrounding whitespace: a trimmed core between
   * two runs of whitespace strips to the core.
   */
  lemma StripExact(lead: string, core: string, trail: string)
    requires Blank(lead) && Trimmed(core) && Blank(trail)
    ensures Strip(lead + core + trail) == core
  {
    if core == [] {
      assert lead + core + trail == lead + trail;
      assert Blank(lead + trail);
      LStripBlank(lead + trail, []);
      assert lead + trail + [] == lead + trail;
    } else {
      assert lead + core + trail == lead + (core + trail);
      LStripBlank(lead, core + trail);
      RStripBlank(core, trail);
    }
  }

  lemma {:induction false} LStripBlank(lead: string, t: string)
    requires Blank(lead) && (t == [] || !IsSpace(t[0]))
    ensures LStrip(lead + t) == t
  {
    if lead == [] {
      assert lead + t == t;
    } else {
      assert (lead + t)[1..] == lead[1..] + t;
      LStripBlank(lead[1..], t);
    }
  }

  lemma {:induction false} RStripBlank(t: string, trail: string)
    requires Blank(trail) && (t == [] || !IsSpace(t[|t| - 1]))
    ensures RStrip(t + trail) == t
  {
    if trail == [] {
      assert t + trail == t;
    } else {
      var n := |trail| - 1;
      assert (t + trail)[..|t + trail| - 1] == t + trail[..n];
      RStripBlank(t, trail[..n]);
    }
  }

  lemma StripIdempotent(s: string)
    ensures Strip(Strip(s)) == Strip(s)
  {
    StripTrimmed(Strip(s));
  }

  function UpperChar(c: char): (u: char) {
    if 'a' <= c <= 'z' then (c as int - 32) as char else c
  }

  function LowerChar(c: char): (l: char) {
    if 'A' <= c <= 'Z' then (c as int + 32) as char else c
  }

  /** `str.upper()` on ASCII letters. */
  function Upper(s: string): (r: string)
    ensures |r| == |s|
    ensures forall i :: 0 <= i < |s| ==> r[i] == UpperChar(s[i])
  {
    seq(|s|, i requires 0 <= i < |s| => UpperChar(s[i]))
  }

  /** `str.lower()` on ASCII letters. */
  function Lower(s: string): (r: string)
    ensures |r| == |s|
    ensures forall i :: 0 <= i < |s| ==> r[i] == LowerChar(s[i])
  {
    seq(|s|, i requires 0 <= i < |s| => LowerChar(s[i]))
  }

  /** Case mapping never turns whitespace into non-whitespace or back. */
  lemma CaseKeepsSpace(c: char)
    ensures IsSpace(UpperChar(c)) <==> IsSpace(c)
    ensures IsSpace(LowerChar(c)) <==> IsSpace(c)
  {
  }

  lemma LowerIdempotent(s: string)
    ensures Lower(Lower(s)) == Lower(s)
  {
  }

  /** Lowering forgets any earlier upper-casing. */
  lemma LowerUpper(s: string)
    ensures Lower(Upper(s)) == Lower(s)
  {
  }

  /** Upper-casing and stripping commute, so `s.upper().strip()` is `s.strip().upper()`. */
  lemma {:induction false} UpperStrip(s: string)
    ensures Strip(Upper(s)) == Upper(Strip(s))
  {
    LStripUpper(s);
    RStripUpper(LStrip(s));
  }

  lemma {:induction false} LStripUpper(s: string)
    ensures LStrip(Upper(s)) == Upper(LStrip(s))
  {
    if s != [] {
      CaseKeepsSpace(s[0]);
      if IsSpace(s[0]) {
        assert Upper(s)[1..] == Upper(s[1..]);
        LStripUpper(s[1..]);
      }
    }
  }

  lemma {:induction false} RStripUpper(s: string)
    ensures RStrip(Upper(s)) == Upper(RStrip(s))
  {
    if s != [] {
      CaseKeepsSpace(s[|s| - 1]);
      if IsSpace(s[|s| - 1]) {
        assert Upper(s)[..|s| - 1] == Upper(s[..|s| - 1]);
        RStripUpper(s[..|s| - 1]);
      }
    }
  }

  /** A word of `str.split()`: non-empty and free of whitespace. */
  predicate IsWord(w: string) {
    w != [] && forall i :: 0 <= i < |w| ==> !IsSpace(w[i])
  }

  predicate AllWords(ws: seq<string>) {
    forall i :: 0 <= i < |ws| ==> IsWord(ws[i])
  }

  /** The longest prefix of `s` free of whitespace. */
  function Word(s: string): (w: string)
    ensures |w| <= |s| && w == s[..|w|]
    ensures forall i :: 0 <= i < |w| ==> !IsSpace(w[i])
    ensures |w| < |s| ==> IsSpace(s[|w|])
    ensures s != [] && !IsSpace(s[0]) ==> w != []
  {
    if s == [] || IsSpace(s[0]) then [] else [s[0]] + Word(s[1..])
  }

  /**
   * `str.split()` with no separator: the maximal runs of non-whitespace, in
   * order; whitespace is skipped one character at a time.
   */
  function Split(s: string): (ws: seq<string>)
    ensures AllWords(ws)
    decreases |s|
  {
    if s == [] then []
    else if IsSpace(s[0]) then Split(s[1..])
    else
      var w := Word(s);
      [w] + Split(s[|w|..])
  }

  /** `" ".join(ws)`. */
  function Join(ws: seq<string>): string {
    if ws == [] then ""
    else if |ws| == 1 then ws[0]
    else ws[0] + " " + Join(ws[1..])
  }

  /** The name normalisation of the purchase handler: `" ".join(s.split()).lower()`. */
  function Norm(s: string): (n: string)
    ensures Split(n) == LowerAll(Split(s))
  {
    LowerJoin(Split(s));
    LowerAllWords(Split(s));
    SplitJoin(LowerAll(Split(s)));
    Lower(Join(Split(s)))
  }

  lemma {:induction false} WordOfWord(w: string, rest: string)
    requires IsWord(w)
    requires rest == [] || IsSpace(rest[0])
    ensures Word(w + rest) == w
  {
    if |w| > 1 {
      assert (w + rest)[1..] == w[1..] + rest;
      WordOfWord(w[1..], rest);
    }
  }

  /** Leading whitespace does not change the split. */
  lemma SplitSpace(t: string)
    ensures Split(" " + t) == Split(t)
  {
    assert (" " + t)[1..] == t;
  }

  /** A word followed by whitespace or nothing splits off as the first word. */
  lemma SplitWord(w: string, rest: string)
    requires IsWord(w)
    requires rest == [] || IsSpace(rest[0])
    ensures Split(w + rest) == [w] + Split(rest)
  {
    WordOfWord(w, rest);
    assert (w + rest)[0] == w[0];
    assert (w + rest)[|w|..] == rest;
  }

  /** A word, a space, then anything: the word splits off and the space is dropped. */
  lemma SplitWordSpace(w: string, tail: string)
    requires IsWord(w)
    ensures Split(w + (" " + tail)) == [w] + Split(tail)
  {
    SplitWord(w, " " + tail);
    SplitSpace(tail);
  }

  /** Splitting a joined list of words gives the words back. */
  lemma {:induction false} SplitJoin(ws: seq<string>)
    requires AllWords(ws)
    ensures Split(Join(ws)) == ws
  {
    if |ws| == 1 {
      SplitWord(ws[0], []);
      assert ws[0] + [] == ws[0];
    } else if |ws| > 1 {
      var w, rest := ws[0], ws[1..];
      assert IsWord(w) && AllWords(rest);
      assert Join(ws) == w + (" " + Join(rest));
      SplitWordSpace(w, Join(rest));
      SplitJoin(rest);
      assert [w] + rest == ws;
    }
  }

  lemma LowerConcat(a: string, b: string)
    ensures Lower(a + b) == Lower(a) + Lower(b)
  {
  }

  function LowerAll(ws: seq<string>): (ls: seq<string>)
    ensures |ls| == |ws|
    ensures forall i :: 0 <= i < |ws| ==> ls[i] == Lower(ws[i])
  {
    seq(|ws|, i requires 0 <= i < |ws| => Lower(ws[i]))
  }

  lemma {:induction false} LowerJoin(ws: seq<string>)
    ensures Lower(Join(ws)) == Join(LowerAll(ws))
  {
    if |ws| > 1 {
      LowerConcat(ws[0] + " ", Join(ws[1..]));
      LowerConcat(ws[0], " ");
      assert LowerAll(ws)[1..] == LowerAll(ws[1..]);
      LowerJoin(ws[1..]);
    }
  }

  /** Normalising twice is normalising once. */
  lemma NormIdempotent(s: string)
    ensures Norm(Norm(s)) == Norm(s)
  {
    var lw := LowerAll(Split(s));
    LowerAllWords(Split(s));
    LowerJoin(Split(s));
    SplitJoin(lw);
    LowerIdempotent(Join(lw));
  }

  /** Lower-casing keeps a word a word. */
  lemma LowerAllWords(ws: seq<string>)
    requires AllWords(ws)
    ensures AllWords(LowerAll(ws))
  {
    forall i | 0 <= i < |ws| ensures IsWord(LowerAll(ws)[i]) {
      forall k | 0 <= k < |ws[i]| ensures !IsSpace(Lower(ws[i])[k]) {
        CaseKeepsSpace(ws[i][k]);
      }
    }
  }

  /**
   * Two strings normalise alike exactly when they have the same words up to
   * (ASCII) case: the amount and kind of whitespace around and between words
   * does not matter.
   */
  lemma NormMatch(a: string, b: string)
    ensures Norm(a) == Norm(b) <==> LowerAll(Split(a)) == LowerAll(Split(b))
  {
    var la, lb := LowerAll(Split(a)), LowerAll(Split(b));
    LowerJoin(Split(a));
    LowerJoin(Split(b));
    if Norm(a) == Norm(b) {
      LowerAllWords(Split(a));
      LowerAllWords(Split(b));
      SplitJoin(la);
      SplitJoin(lb);
    }
  }

  /** A run of whitespace, possibly empty. */
  predicate Blank(s: string) {
    forall i :: 0 <= i < |s| ==> IsSpace(s[i])
  }

  /** Leading whitespace of any kind and length does not change the split. */
  lemma {:induction false} SplitBlank(sp: string, t: string)
    requires Blank(sp)
    ensures Split(sp + t) == Split(t)
  {
    if sp != [] {
      assert sp + t == [sp[0]] + (sp[1..] + t);
      SplitSpaceChar(sp[0], sp[1..] + t);
      SplitBlank(sp[1..], t);
    } else {
      assert sp + t == t;
    }
  }

  lemma SplitSpaceChar(c: char, t: string)
    requires IsSpace(c)
    ensures Split([c] + t) == Split(t)
  {
    assert ([c] + t)[1..] == t;
  }

  lemma PairConcat<T>(a: T, b: T)
    ensures [a] + [b] == [a, b]
  {
  }

  /** A word, a non-empty run of whitespace, then anything: the word splits off and the run is dropped. */
  lemma SplitWordGap(w: string, gap: string, rest: string)
    requires Blank(gap) && gap != [] && IsWord(w)
    ensures Split(w + (gap + rest)) == [w] + Split(rest)
  {
    assert IsSpace(gap[0]) && (gap + rest)[0] == gap[0];
    SplitWord(w, gap + rest);
    SplitBlank(gap, rest);
  }

  lemma SplitOneWord(w: string)
    requires IsWord(w)
    ensures Split(w) == [w]
  {
    SplitWord(w, []);
    assert w + [] == w;
  }

  /** Two words between runs of whitespace split into exactly those two words. */
  lemma SplitTwoWords(lead: string, w1: string, gap: string, w2: string)
    requires Blank(lead) && Blank(gap) && gap != [] && IsWord(w1) && IsWord(w2)
    ensures Split(lead + (w1 + (gap + w2))) == [w1, w2]
  {
    SplitBlank(lead, w1 + (gap + w2));
    SplitWordGap(w1, gap, w2);
    SplitOneWord(w2);
    PairConcat(w1, w2);
  }

  /**
   * The card-name rule on a two-word name: any leading and inner whitespace,
   * and any ASCII case, match the single-spaced spelling.
   */
  lemma NormTwoWords(lead: string, w1: string, gap: string, w2: string, v1: string, v2: string)
    requires Blank(lead) && Blank(gap) && gap != [] && IsWord(w1) && IsWord(w2)
    requires IsWord(v1) && IsWord(v2) && Lower(w1) == Lower(v1) && Lower(w2) == Lower(v2)
    ensures Norm(lead + (w1 + (gap + w2))) == Norm(v1 + (" " + v2))
  {
    var a, b := lead + (w1 + (gap + w2)), v1 + (" " + v2);
    assert Split(a) == [w1, w2] by {
      SplitTwoWords(lead, w1, gap, w2);
    }
    assert Split(b) == [v1, v2] by {
      SplitTwoWords([], v1, " ", v2);
      assert [] + b == b;
    }
    assert LowerAll([w1, w2]) == LowerAll([v1, v2]);
    NormMatch(a, b);
  }

  /** "  JOHN   DOE" matches "John Doe". */
  lemma NormExample()
    ensures Norm("  " + ("JOHN" + ("   " + "DOE"))) == Norm("John" + (" " + "Doe"))
  {
    ExampleCase();
    ExampleShape();
    NormTwoWords("  ", "JOHN", "   ", "DOE", "John", "Doe");
  }

  lemma ExampleCase()
    ensures Lower("JOHN") == Lower("John") && Lower("DOE") == Lower("Doe")
  {
    assert Lower("JOHN") == "john" == Lower("John");
    assert Lower("DOE") == "doe" == Lower("Doe");
  }

  lemma ExampleShape()
    ensures Blank("  ") && Blank("   ") && "   " != []
    ensures IsWord("JOHN") && IsWord("DOE") && IsWord("John") && IsWord("Doe")
  {
  }

  /** `str.isdigit()` restricted to ASCII digits: non-empty and all of '0'..'9'. */
  predicate IsDigits(s: string) {
    s != [] && forall i :: 0 <= i < |s| ==> '0' <= s[i] <= '9'
  }

  /** A run of digits is already stripped, and splits into itself as one word. */
  lemma DigitsAreWord(s: string)
    requires IsDigits(s)
    ensures Trimmed(s) && Strip(s) == s
    ensures Split(s) == [s]
  {
    assert !IsSpace(s[0]) && !IsSpace(s[|s| - 1]);
    StripTrimmed(s);
    assert IsWord(s);
    SplitOneWord(s);
  }

  /** Python's `a < b` on strings: lexicographic by code point. */
  predicate StrLess(a: string, b: string) {
    if a == [] then b != []
    else if b == [] then false
    else if a[0] != b[0] then a[0] < b[0]
    else StrLess(a[1..], b[1..])
  }

  lemma {:induction false} StrLessIrreflexive(a: string)
    ensures !StrLess(a, a)
  {
    if a != [] { StrLessIrreflexive(a[1..]); }
  }

  lemma {:induction false} StrLessAsymmetric(a: string, b: string)
    requires StrLess(a, b)
    ensures !StrLess(b, a)
  {
    if a != [] && b != [] && a[0] == b[0] { StrLessAsymmetric(a[1..], b[1..]); }
  }

  lemma {:induction false} StrLessTransitive(a: string, b: string, c: string)
    requires StrLess(a, b) && StrLess(b, c)
    ensures StrLess(a, c)
  {
    if a != [] && a[0] == b[0] && b[0] == c[0] {
      StrLessTransitive(a[1..], b[1..], c[1..]);
    }
  }

  /** Any two different strings are ordered one way or the other. */
  lemma {:induction false} StrLessTotal(a: string, b: string)
    requires a != b
    ensures StrLess(a, b) || StrLess(b, a)
  {
    if a != [] && b != [] && a[0] == b[0] {
      assert a == [a[0]] + a[1..] && b == [b[0]] + b[1..];
      StrLessTotal(a[1..], b[1..]);
    }
  }
}
