/** The parts of Python's `str` that the modelled code relies on: substring
    search, `split`/`join` with an explicit separator, `split()` on runs of
    whitespace, `lower()`, `strip`, `replace(c, '')` and decimal rendering
    of integers. Strings are sequences of code points, as in Python 3. */
module PyStr {
  import opened Wrappers

  /** The characters for which Python 3's `str.isspace()` holds: the ones
      `split()` and `strip()` without arguments treat as whitespace. */
  predicate IsSpace(c: char) {
    || ('\t' <= c <= '\r') || ('\U{1c}' <= c <= '\U{1f}') || c == ' '
    || c == '\U{85}' || c == '\U{a0}' || c == '\U{1680}'
    || ('\U{2000}' <= c <= '\U{200a}') || c == '\U{2028}' || c == '\U{2029}'
    || c == '\U{202f}' || c == '\U{205f}' || c == '\U{3000}'
  }

  predicate IsDigit(c: char) {
    '0' <= c <= '9'
  }

  predicate IsUpper(c: char) {
    'A' <= c <= 'Z'
  }

  // ---------------------------------------------------------------------
  // Substring search (`p in s`, `s.find(p)`)
  // ---------------------------------------------------------------------

  predicate OccursAt(s: string, p: string, i: int) {
    0 <= i && i + |p| <= |s| && s[i..i + |p|] == p
  }

  /** The first occurrence of `p` in `s` at or after index `i`. */
  function FindFrom(s: string, p: string, i: nat): (r: Option<nat>)
    requires i <= |s|
    ensures r.Some? ==> i <= r.value && OccursAt(s, p, r.value)
    ensures r.Some? ==> forall j :: i <= j < r.value ==> !OccursAt(s, p, j)
    ensures r.None? ==> forall j :: i <= j ==> !OccursAt(s, p, j)
    decreases |s| - i
  {
    if OccursAt(s, p, i) then Some(i)
    else if i == |s| then None
    else FindFrom(s, p, i + 1)
  }

  /** `s.find(p)`, with -1 rendered as `None`. */
  function Find(s: string, p: string): Option<nat> {
    FindFrom(s, p, 0)
  }

  /** Python's `p in s`. */
  predicate Contains(s: string, p: string) {
    Find(s, p).Some?
  }

  lemma ContainsIff(s: string, p: string)
    ensures Contains(s, p) <==> exists j :: OccursAt(s, p, j)
  {
  }

  /** A one-character pattern occurs only where that character does. */
  lemma AbsentChar(s: string, c: char)
    requires c !in s
    ensures !Contains(s, [c])
  {
    forall j ensures !OccursAt(s, [c], j) {
      if 0 <= j < |s| {
        assert s[j..j + 1] == [s[j]];
      }
    }
    ContainsIff(s, [c]);
  }

  lemma OccursInInfix(s: string, p: string, lo: nat, hi: nat, j: int)
    requires lo <= hi <= |s|
    requires OccursAt(s[lo..hi], p, j)
    ensures OccursAt(s, p, lo + j)
  {
    forall k | 0 <= k < |p| ensures s[lo + j + k] == p[k] {
      assert s[lo..hi][j..j + |p|][k] == p[k];
    }
  }

  // ---------------------------------------------------------------------
  // `sep.join(pieces)` and `s.split(sep)`
  // ---------------------------------------------------------------------

  function Join(pieces: seq<string>, sep: string): string
    decreases |pieces|
  {
    if |pieces| == 0 then []
    else if |pieces| == 1 then pieces[0]
    else pieces[0] + sep + Join(pieces[1..], sep)
  }

  /** `s.split(sep)` for a non-empty separator (Python raises `ValueError`
      for an empty one; the callers model that error). The pieces rejoin to
      `s`, and no piece contains the separator. */
  function Split(s: string, sep: string): (r: seq<string>)
    requires sep != []
    ensures |r| >= 1
    ensures Join(r, sep) == s
    ensures forall k :: 0 <= k < |r| ==> !Contains(r[k], sep)
    decreases |s|
  {
    match Find(s, sep)
    case None => [s]
    case Some(i) =>
      var rest := Split(s[i + |sep|..], sep);
      NoEarlierOccurrence(s, sep, i);
      var r := [s[..i]] + rest;
      assert r[1..] == rest;
      assert s == s[..i] + sep + s[i + |sep|..];
      assert forall k :: 1 <= k < |r| ==> r[k] == rest[k - 1];
      r
  }

  /** The first piece ends at the first occurrence of the separator. */
  lemma SplitAtFirst(s: string, sep: string, i: nat)
    requires sep != [] && Find(s, sep) == Some(i)
    ensures i + |sep| <= |s|
    ensures Split(s, sep) == [s[..i]] + Split(s[i + |sep|..], sep)
  {
  }

  /** The split has a single piece exactly when the separator is absent. */
  lemma SplitSingle(s: string, sep: string)
    requires sep != []
    ensures |Split(s, sep)| == 1 <==> !Contains(s, sep)
  {
  }

  lemma NoEarlierOccurrence(s: string, sep: string, i: nat)
    requires sep != []
    requires Find(s, sep) == Some(i)
    ensures !Contains(s[..i], sep)
  {
    if Contains(s[..i], sep) {
      var j := Find(s[..i], sep).value;
      OccursInInfix(s, sep, 0, i, j);
    }
  }

  /** For a one-character separator, splitting undoes joining pieces that do
      not contain it. (For longer separators this fails: pieces can create
      an earlier occurrence across a boundary.) */
  lemma {:induction false} SplitJoin(pieces: seq<string>, sep: string)
    requires |sep| == 1 && |pieces| >= 1
    requires forall k :: 0 <= k < |pieces| ==> !Contains(pieces[k], sep)
    ensures Split(Join(pieces, sep), sep) == pieces
    decreases |pieces|
  {
    var s := Join(pieces, sep);
    if |pieces| == 1 {
      assert s == pieces[0];
    } else {
      var a := pieces[0];
      var rest := Join(pieces[1..], sep);
      assert s == a + sep + rest;
      FirstOccurrenceAfter(a, sep, rest);
      assert s[|a| + 1..] == rest;
      SplitJoin(pieces[1..], sep);
      assert pieces == [a] + pieces[1..];
    }
  }

  lemma FirstOccurrenceAfter(a: string, sep: string, rest: string)
    requires |sep| == 1 && !Contains(a, sep)
    ensures Find(a + sep + rest, sep) == Some(|a|)
  {
    var s := a + sep + rest;
    assert OccursAt(s, sep, |a|) by { assert s[|a|..|a| + 1] == sep; }
    forall j | 0 <= j < |a| ensures !OccursAt(s, sep, j) {
      if OccursAt(s, sep, j) {
        assert s[j..j + 1] == a[j..j + 1];
        assert OccursAt(a, sep, j);
        ContainsIff(a, sep);
        assert false;
      }
    }
  }

  // ---------------------------------------------------------------------
  // `s.lower()`, `s.replace(c, '')`, `s.strip(chars)`
  // ---------------------------------------------------------------------

  function LowerChar(c: char): char {
    if IsUpper(c) then (c as int + 32) as char else c
  }

  /** `s.lower()` on A-Z (see README for the Unicode case mappings left out). */
  function Lower(s: string): (r: string)
    ensures |r| == |s|
    ensures forall k :: 0 <= k < |r| ==> !IsUpper(r[k])
  {
    seq(|s|, k requires 0 <= k < |s| => LowerChar(s[k]))
  }

  predicate IsLowered(s: string) {
    forall k :: 0 <= k < |s| ==> !IsUpper(s[k])
  }

  /** A string without upper-case letters is its own lower-case form, so
      `lower()` is idempotent. */
  lemma LowerFixesLowered(s: string)
    requires IsLowered(s)
    ensures Lower(s) == s
  {
  }

  lemma LowerConcat(a: string, b: string)
    ensures Lower(a + b) == Lower(a) + Lower(b)
  {
  }

  /** `s.replace(c, '')`. */
  function RemoveChar(s: string, c: char): (r: string)
    ensures c !in r
    ensures |r| <= |s|
  {
    if s == [] then []
    else
      assert s == [s[0]] + s[1..];
      (if s[0] == c then [] else [s[0]]) + RemoveChar(s[1..], c)
  }

  /** Removing a character adds no other character. */
  lemma {:induction false} RemoveCharKeepsAbsent(s: string, c: char, d: char)
    requires d !in s
    ensures d !in RemoveChar(s, c)
  {
    if s != [] {
      assert d !in s[1..];
      RemoveCharKeepsAbsent(s[1..], c, d);
    }
  }

  /** `s.lstrip(chars)`, the character set given as `drop`. */
  function LStrip(s: string, drop: char -> bool): (r: string)
    ensures |r| <= |s| && r == s[|s| - |r|..]
    ensures r != [] ==> !drop(r[0])
    ensures forall k :: 0 <= k < |s| - |r| ==> drop(s[k])
  {
    s[LeadingEnd(s, drop, 0)..]
  }

  /** `s.rstrip(chars)`. */
  function RStrip(s: string, drop: char -> bool): (r: string)
    ensures |r| <= |s| && r == s[..|r|]
    ensures r != [] ==> !drop(r[|r| - 1])
    ensures forall k :: |r| <= k < |s| ==> drop(s[k])
  {
    s[..TrailingStart(s, drop, |s|)]
  }

  /** The end of the run of dropped characters that starts at `i`. */
  function LeadingEnd(s: string, drop: char -> bool, i: nat): (n: nat)
    requires i <= |s|
    ensures i <= n <= |s| && (n < |s| ==> !drop(s[n]))
    ensures forall k :: i <= k < n ==> drop(s[k])
    decreases |s| - i
  {
    if i < |s| && drop(s[i]) then LeadingEnd(s, drop, i + 1) else i
  }

  /** The start of the run of dropped characters that ends at `j`. */
  function TrailingStart(s: string, drop: char -> bool, j: nat): (n: nat)
    requires j <= |s|
    ensures n <= j && (n > 0 ==> !drop(s[n - 1]))
    ensures forall k :: n <= k < j ==> drop(s[k])
  {
    if j > 0 && drop(s[j - 1]) then TrailingStart(s, drop, j - 1) else j
  }

  /** `s.strip(chars)`: the longest infix whose ends are not dropped. */
  function Strip(s: string, drop: char -> bool): string {
    RStrip(LStrip(s, drop), drop)
  }

  /** The stripped string is the infix of `s` that starts after the
      characters `lstrip` removed. */
  lemma StripInfix(s: string, drop: char -> bool)
    ensures var i := |s| - |LStrip(s, drop)|;
      var r := Strip(s, drop);
      i + |r| <= |s| && s[i..i + |r|] == r
  {
    var l := LStrip(s, drop);
    var r := RStrip(l, drop);
    PrefixOfSuffix(s, l, r);
  }

  lemma PrefixOfSuffix<T>(s: seq<T>, l: seq<T>, r: seq<T>)
    requires |l| <= |s| && l == s[|s| - |l|..]
    requires |r| <= |l| && r == l[..|r|]
    ensures var i := |s| - |l|;
      i + |r| <= |s| && s[i..i + |r|] == r
  {
    var i := |s| - |l|;
    assert s[i..i + |r|] == s[i..][..|r|];
  }

  /** Neither end of a non-empty stripped string is a dropped character. */
  lemma StripEnds(s: string, drop: char -> bool)
    ensures var r := Strip(s, drop);
      r != [] ==> !drop(r[0]) && !drop(r[|r| - 1])
  {
    var l := LStrip(s, drop);
    var r := RStrip(l, drop);
    if r != [] {
      assert r[0] == l[0];
    }
  }

  /** Everything outside the infix was dropped. */
  lemma StripOutside(s: string, drop: char -> bool)
    ensures var i := |s| - |LStrip(s, drop)|;
      var r := Strip(s, drop);
      && (forall k :: 0 <= k < i ==> drop(s[k]))
      && (forall k :: i + |r| <= k < |s| ==> drop(s[k]))
  {
    var l := LStrip(s, drop);
    var r := RStrip(l, drop);
    var i := |s| - |l|;
    forall k | i + |r| <= k < |s| ensures drop(s[k]) {
      assert s[k] == l[k - i];
    }
  }

  /** `strip` removes the longest run of dropped characters at each end. */
  lemma StripShape(s: string, drop: char -> bool)
    ensures var r := Strip(s, drop);
      && |r| <= |s|
      && (r != [] ==> !drop(r[0]) && !drop(r[|r| - 1]))
      && var i := |s| - |LStrip(s, drop)|;
      && i + |r| <= |s| && s[i..i + |r|] == r
      && (forall k :: 0 <= k < i ==> drop(s[k]))
      && (forall k :: i + |r| <= k < |s| ==> drop(s[k]))
  {
    StripInfix(s, drop);
    StripEnds(s, drop);
    StripOutside(s, drop);
  }

  predicate IsQuote(c: char) {
    c == '\'' || c == '"'
  }

  /** `s.strip('\'"')`. */
  function StripQuotes(s: string): string {
    Strip(s, IsQuote)
  }

  /** `s.strip()`. */
  function StripSpace(s: string): string {
    Strip(s, IsSpace)
  }

  // ---------------------------------------------------------------------
  // `s.split()` with no argument
  // ---------------------------------------------------------------------

  predicate IsWord(w: string) {
    w != [] && forall k :: 0 <= k < |w| ==> !IsSpace(w[k])
  }

  /** The length of the leading run of non-whitespace characters. */
  function WordSpan(s: string): (n: nat)
    ensures n <= |s|
    ensures forall k :: 0 <= k < n ==> !IsSpace(s[k])
    ensures n < |s| ==> IsSpace(s[n])
  {
    if s == [] || IsSpace(s[0]) then 0 else 1 + WordSpan(s[1..])
  }

  /** `s.split()`: the maximal runs of non-whitespace characters. */
  function Words(s: string): (r: seq<string>)
    ensures forall k :: 0 <= k < |r| ==> IsWord(r[k])
    decreases |s|
  {
    if s == [] then []
    else if IsSpace(s[0]) then Words(s[1..])
    else
      var n := WordSpan(s);
      [s[..n]] + Words(s[n..])
  }

  /** `len(s.split())`. */
  function WordCount(s: string): nat {
    |Words(s)|
  }

  lemma WordSpanOfWord(w: string, rest: string)
    requires IsWord(w)
    requires rest == [] || IsSpace(rest[0])
    ensures WordSpan(w + rest) == |w|
  {
    var s := w + rest;
    assert forall k :: 0 <= k < |w| ==> s[k] == w[k];
    assert |w| < |s| ==> s[|w|] == rest[0];
  }

  /** Splitting on whitespace undoes joining words with single spaces. */
  lemma {:induction false} WordsOfJoin(ws: seq<string>)
    requires forall k :: 0 <= k < |ws| ==> IsWord(ws[k])
    ensures Words(Join(ws, " ")) == ws
    decreases |ws|
  {
    if |ws| == 0 {
    } else if |ws| == 1 {
      var w := ws[0];
      WordSpanOfWord(w, []);
      assert w != [] && !IsSpace(w[0]);
      assert w[|w|..] == [];
      assert w[..|w|] == w;
    } else {
      var w := ws[0];
      var tail := Join(ws[1..], " ");
      var s := w + " " + tail;
      assert Join(ws, " ") == s;
      WordSpanOfWord(w, " " + tail);
      assert s == w + (" " + tail);
      assert s[0] == w[0];
      assert s[..|w|] == w;
      assert s[|w|..] == " " + tail;
      assert (" " + tail)[1..] == tail;
      WordsOfJoin(ws[1..]);
      assert Words(s) == [w] + Words(" " + tail);
      assert ws == [w] + ws[1..];
    }
  }

  // ---------------------------------------------------------------------
  // `str(n)` and `int(digits)`
  // ---------------------------------------------------------------------

  function DigitChar(d: nat): (c: char)
    requires d < 10
    ensures IsDigit(c)
  {
    (48 + d) as char
  }

  function DigitValue(c: char): nat
    requires IsDigit(c)
  {
    c as int - 48
  }

  predicate AllDigits(s: string) {
    forall k :: 0 <= k < |s| ==> IsDigit(s[k])
  }

  /** `str(n)` for a non-negative integer. */
  function Decimal(n: nat): (r: string)
    ensures r != [] && AllDigits(r)
  {
    if n < 10 then [DigitChar(n)] else Decimal(n / 10) + [DigitChar(n % 10)]
  }

  /** `int(s)` for a string of ASCII digits (leading zeros allowed). */
  function DigitsValue(s: string): nat
    requires AllDigits(s)
  {
    if s == [] then 0 else DigitsValue(s[..|s| - 1]) * 10 + DigitValue(s[|s| - 1])
  }

  /** `int(str(n)) == n`. */
  lemma {:induction false} DecimalRoundTrip(n: nat)
    ensures DigitsValue(Decimal(n)) == n
  {
    if n >= 10 {
      var s := Decimal(n);
      DecimalRoundTrip(n / 10);
      assert s[..|s| - 1] == Decimal(n / 10);
    }
  }

  /** Different numbers render differently. */
  lemma DecimalInjective(m: nat, n: nat)
    requires Decimal(m) == Decimal(n)
    ensures m == n
  {
    DecimalRoundTrip(m);
    DecimalRoundTrip(n);
  }

  // ---------------------------------------------------------------------
  // Python sequence indexing `xs[idx]`
  // ---------------------------------------------------------------------

  /** The position `xs[idx]` reads in a sequence of length `n`: a negative
      index counts from the end; anything else out of range is an
      `IndexError` (`None`). */
  function PyIndex(n: nat, idx: int): (r: Option<nat>)
    ensures r.Some? <==> -(n as int) <= idx < n
    ensures r.Some? ==> r.value < n && (r.value == idx || r.value == n + idx)
  {
    if 0 <= idx < n then Some(idx)
    else if -(n as int) <= idx < 0 then Some(n + idx)
    else None
  }
}
