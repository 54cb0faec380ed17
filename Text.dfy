/** String operations the components rely on, written out with the
    semantics JavaScript gives them: the whitespace class `\s`, `trim()`,
    `toLowerCase()` on ASCII letters, `split(/\s+/)`, and the decimal text
    a template literal produces for an integer. */
module Text {

  /** The ECMAScript WhiteSpace and LineTerminator code points: exactly
      what `\s` matches and what `trim()` strips. */
  predicate IsSpace(c: char) {
    || c == '\t' || c == '\n' || c == '\U{B}' || c == '\U{C}' || c == '\r'
    || c == ' ' || c == '\U{A0}' || c == '\U{1680}' || ('\U{2000}' <= c <= '\U{200A}')
    || c == '\U{2028}' || c == '\U{2029}' || c == '\U{202F}' || c == '\U{205F}'
    || c == '\U{3000}' || c == '\U{FEFF}'
  }

  predicate AllSpace(s: string) {
    forall i | 0 <= i < |s| :: IsSpace(s[i])
  }

  predicate NoSpace(s: string) {
    forall i | 0 <= i < |s| :: !IsSpace(s[i])
  }

  /** `s` without its leading whitespace. */
  function TrimStart(s: string): (r: string)
    ensures |r| <= |s| && r == s[|s| - |r|..]
    ensures AllSpace(s[..|s| - |r|])
    ensures r == [] || !IsSpace(r[0])
  {
    if |s| > 0 && IsSpace(s[0]) then
      var r := TrimStart(s[1..]);
      assert s[..|s| - |r|] == [s[0]] + s[1..][..|s| - 1 - |r|];
      r
    else s
  }

  /** `s` without its trailing whitespace. */
  function TrimEnd(s: string): (r: string)
    ensures |r| <= |s| && r == s[..|r|]
    ensures AllSpace(s[|r|..])
    ensures r == [] || !IsSpace(r[|r| - 1])
  {
    if |s| > 0 && IsSpace(s[|s| - 1]) then
      var r := TrimEnd(s[..|s| - 1]);
      assert s[|r|..] == s[..|s| - 1][|r|..] + [s[|s| - 1]];
      r
    else s
  }

  /** `s.trim()`: both ends cut, each as `TrimStart` and `TrimEnd` state. */
  function Trim(s: string): string {
    TrimEnd(TrimStart(s))
  }

  /** `!s.trim()`: the guard every text input of the application uses. */
  predicate IsBlank(s: string) {
    Trim(s) == []
  }

  /** Trimming leaves nothing exactly when every character is whitespace. */
  lemma BlankIffAllSpace(s: string)
    ensures IsBlank(s) <==> AllSpace(s)
  {
    var t := TrimStart(s);
    if t != [] {
      // the first character of t is kept by TrimEnd
      assert !IsSpace(t[0]);
      assert !IsSpace(s[|s| - |t|]);
    } else {
      assert s[..|s|] == s;
    }
  }

  function LowerChar(c: char): char {
    if 'A' <= c <= 'Z' then (c as int + 32) as char else c
  }

  /** `s.toLowerCase()` restricted to ASCII letters. */
  function ToLower(s: string): (r: string)
    ensures |r| == |s|
    ensures forall i | 0 <= i < |s| :: !('A' <= r[i] <= 'Z')
    ensures forall i | 0 <= i < |s| :: r[i] == s[i] || (('A' <= s[i] <= 'Z') && r[i] as int == s[i] as int + 32)
    ensures forall i | 0 <= i < |s| :: IsSpace(r[i]) <==> IsSpace(s[i])
  {
    seq(|s|, i requires 0 <= i < |s| => LowerChar(s[i]))
  }

  /** Length of the longest prefix of `s` without whitespace. */
  function SpanNonSpace(s: string): (n: nat)
    ensures n <= |s| && NoSpace(s[..n])
    ensures n < |s| ==> IsSpace(s[n])
  {
    if |s| == 0 || IsSpace(s[0]) then 0
    else
      var n := 1 + SpanNonSpace(s[1..]);
      assert s[..n] == [s[0]] + s[1..][..n - 1];
      n
  }

  /** Length of the longest prefix of `s` made of whitespace. */
  function SpanSpace(s: string): (n: nat)
    ensures n <= |s| && AllSpace(s[..n])
    ensures n < |s| ==> !IsSpace(s[n])
  {
    if |s| == 0 || !IsSpace(s[0]) then 0
    else
      var n := 1 + SpanSpace(s[1..]);
      assert s[..n] == [s[0]] + s[1..][..n - 1];
      n
  }

  /** `s.split(/\s+/)`: the pieces between maximal runs of whitespace. A
      leading or trailing run gives an empty first or last piece, and the
      empty string gives one empty piece. */
  function Tokens(s: string): (r: seq<string>)
    ensures |r| >= 1
    ensures forall k | 0 <= k < |r| :: NoSpace(r[k])
    decreases |s|
  {
    var i := SpanNonSpace(s);
    if i == |s| then
      assert s[..i] == s;
      [s]
    else
      var j := i + SpanSpace(s[i..]);
      [s[..i]] + Tokens(s[j..])
  }

  /** The whitespace runs `split(/\s+/)` cuts at, in order. */
  function Gaps(s: string): seq<string>
    decreases |s|
  {
    var i := SpanNonSpace(s);
    if i == |s| then []
    else
      var j := i + SpanSpace(s[i..]);
      [s[i..j]] + Gaps(s[j..])
  }

  /** Every run `split(/\s+/)` cuts at is non-empty whitespace. */
  lemma {:induction false} GapsAreRuns(s: string)
    ensures forall k | 0 <= k < |Gaps(s)| :: |Gaps(s)[k]| > 0 && AllSpace(Gaps(s)[k])
    decreases |s|
  {
    var i := SpanNonSpace(s);
    if i < |s| {
      var j := i + SpanSpace(s[i..]);
      var g, gs := s[i..j], Gaps(s[j..]);
      assert j > i by {
        assert s[i..][0] == s[i];
      }
      assert AllSpace(g) by {
        assert g == s[i..][..j - i];
      }
      assert Gaps(s) == [g] + gs;
      GapsAreRuns(s[j..]);
      forall k | 0 <= k < |Gaps(s)|
        ensures |Gaps(s)[k]| > 0 && AllSpace(Gaps(s)[k])
      {
        if k > 0 {
          assert Gaps(s)[k] == gs[k - 1];
        }
      }
    }
  }

  /** Pieces with the runs between them put back. */
  function Weave(pieces: seq<string>, gaps: seq<string>): string
    requires |pieces| == |gaps| + 1
    decreases |gaps|
  {
    if gaps == [] then pieces[0] else pieces[0] + gaps[0] + Weave(pieces[1..], gaps[1..])
  }

  /** There is one whitespace run fewer than pieces. */
  lemma {:induction false} GapsCount(s: string)
    ensures |Gaps(s)| == |Tokens(s)| - 1
    decreases |s|
  {
    var i := SpanNonSpace(s);
    if i < |s| {
      var j := i + SpanSpace(s[i..]);
      assert |Gaps(s)| == 1 + |Gaps(s[j..])|;
      assert |Tokens(s)| == 1 + |Tokens(s[j..])|;
      GapsCount(s[j..]);
    }
  }

  /** `split(/\s+/)` cuts at maximal runs: putting the runs back between
      the pieces gives the text, and every piece but the first and the last
      is non-empty, so no run is cut in two. */
  lemma TokensSplitAtRuns(s: string)
    ensures |Gaps(s)| == |Tokens(s)| - 1
    ensures forall k | 0 <= k < |Gaps(s)| :: |Gaps(s)[k]| > 0 && AllSpace(Gaps(s)[k])
    ensures Weave(Tokens(s), Gaps(s)) == s
    ensures forall k | 0 < k < |Tokens(s)| - 1 :: |Tokens(s)[k]| > 0
  {
    GapsCount(s);
    GapsAreRuns(s);
    WeaveTokens(s);
    InteriorTokensNonEmpty(s);
  }

  lemma {:induction false} WeaveTokens(s: string)
    requires |Gaps(s)| == |Tokens(s)| - 1
    ensures Weave(Tokens(s), Gaps(s)) == s
    decreases |s|
  {
    var i := SpanNonSpace(s);
    if i == |s| {
      assert s[..i] == s;
    } else {
      var j := i + SpanSpace(s[i..]);
      var tail := s[j..];
      GapsCount(tail);
      WeaveTokens(tail);
      WeaveCons(s[..i], Tokens(tail), s[i..j], Gaps(tail));
      SliceThree(s, i, j);
    }
  }

  lemma SliceThree<T>(s: seq<T>, i: nat, j: nat)
    requires i <= j <= |s|
    ensures s[..i] + s[i..j] + s[j..] == s
  {
  }

  lemma WeaveCons(p: string, pieces: seq<string>, g: string, gaps: seq<string>)
    requires |pieces| == |gaps| + 1
    ensures Weave([p] + pieces, [g] + gaps) == p + g + Weave(pieces, gaps)
  {
    assert ([p] + pieces)[1..] == pieces;
    assert ([g] + gaps)[1..] == gaps;
  }

  lemma {:induction false} InteriorTokensNonEmpty(s: string)
    ensures forall k | 0 < k < |Tokens(s)| - 1 :: |Tokens(s)[k]| > 0
    decreases |s|
  {
    var i := SpanNonSpace(s);
    if i < |s| {
      var j := i + SpanSpace(s[i..]);
      var rest := Tokens(s[j..]);
      InteriorTokensNonEmpty(s[j..]);
      if |rest| >= 2 {
        assert j < |s|;
        assert s[j] == s[i..][j - i];
        assert |rest[0]| > 0;
      }
      forall k | 0 < k < |Tokens(s)| - 1
        ensures |Tokens(s)[k]| > 0
      {
        assert Tokens(s)[k] == rest[k - 1];
      }
    }
  }

  /** `s` with every whitespace character deleted. */
  function DropSpaces(s: string): string {
    if s == [] then []
    else if IsSpace(s[0]) then DropSpaces(s[1..])
    else [s[0]] + DropSpaces(s[1..])
  }

  function Concat(ts: seq<string>): string {
    if ts == [] then [] else ts[0] + Concat(ts[1..])
  }

  lemma {:induction false} DropSpacesAppend(a: string, b: string)
    ensures DropSpaces(a + b) == DropSpaces(a) + DropSpaces(b)
    decreases |a|
  {
    if a != [] {
      assert (a + b)[0] == a[0];
      assert (a + b)[1..] == a[1..] + b;
      DropSpacesAppend(a[1..], b);
    } else {
      assert a + b == b;
    }
  }

  lemma {:induction false} DropSpacesOfNoSpace(s: string)
    requires NoSpace(s)
    ensures DropSpaces(s) == s
    decreases |s|
  {
    if s != [] {
      DropSpacesOfNoSpace(s[1..]);
    }
  }

  lemma {:induction false} DropSpacesOfAllSpace(s: string)
    requires AllSpace(s)
    ensures DropSpaces(s) == []
    decreases |s|
  {
    if s != [] {
      DropSpacesOfAllSpace(s[1..]);
    }
  }

  /** The tokens are exactly the non-whitespace characters of the text, in
      order, cut at whitespace: gluing them back together gives the text
      with its whitespace removed. */
  lemma {:induction false} TokensCoverText(s: string)
    ensures Concat(Tokens(s)) == DropSpaces(s)
    decreases |s|
  {
    var i := SpanNonSpace(s);
    if i == |s| {
      assert s[..i] == s;
      DropSpacesOfNoSpace(s);
    } else {
      var j := i + SpanSpace(s[i..]);
      assert s[i..][..j - i] == s[i..j];
      ConcatCons(s[..i], Tokens(s[j..]));
      DropSpacesAcrossGap(s, i, j);
      TokensCoverText(s[j..]);
    }
  }

  lemma ConcatCons(head: string, ts: seq<string>)
    ensures Concat([head] + ts) == head + Concat(ts)
  {
    assert ([head] + ts)[1..] == ts;
  }

  /** Deleting whitespace from a token followed by a whitespace run. */
  lemma DropSpacesAcrossGap(s: string, i: nat, j: nat)
    requires i <= j <= |s| && NoSpace(s[..i]) && AllSpace(s[i..j])
    ensures DropSpaces(s) == s[..i] + DropSpaces(s[j..])
  {
    var a, g, b := s[..i], s[i..j], s[j..];
    SliceThree(s, i, j);
    DropSpacesAppend(a + g, b);
    DropSpacesAppend(a, g);
    DropSpacesOfNoSpace(a);
    DropSpacesOfAllSpace(g);
  }

  /** Words glued together with one space between neighbours. */
  function JoinSpaced(words: seq<string>): string {
    if words == [] then []
    else if |words| == 1 then words[0]
    else words[0] + " " + JoinSpaced(words[1..])
  }

  lemma {:induction false} JoinSpacedStart(words: seq<string>)
    requires |words| >= 1 && |words[0]| > 0
    ensures |JoinSpaced(words)| > 0 && JoinSpaced(words)[0] == words[0][0]
  {
  }

  lemma {:induction false} SpanNonSpaceOfConcat(a: string, b: string)
    requires NoSpace(a) && |b| > 0 && IsSpace(b[0])
    ensures SpanNonSpace(a + b) == |a|
    decreases |a|
  {
    if a == [] {
      assert a + b == b;
    } else {
      assert (a + b)[1..] == a[1..] + b;
      SpanNonSpaceOfConcat(a[1..], b);
    }
  }

  /** Splitting undoes joining, for non-empty words without whitespace. */
  lemma {:induction false} TokensOfJoin(words: seq<string>)
    requires |words| >= 1
    requires forall k | 0 <= k < |words| :: |words[k]| > 0 && NoSpace(words[k])
    ensures Tokens(JoinSpaced(words)) == words
    decreases |words|
  {
    var w := words[0];
    var s := JoinSpaced(words);
    if |words| > 1 {
      var rest := JoinSpaced(words[1..]);
      JoinSpacedStart(words[1..]);
      assert s == w + ([' '] + rest);
      SpanNonSpaceOfConcat(w, [' '] + rest);
      var n := SpanNonSpace(s);
      var gap := s[n..];
      assert gap == [' '] + rest;
      assert SpanSpace(gap) == 1;
      assert s[n + 1..] == rest;
      TokensOfJoin(words[1..]);
    }
  }

  function DigitChar(d: nat): char
    requires d < 10
  {
    "0123456789"[d]
  }

  function DigitValue(c: char): nat {
    if '0' <= c <= '9' then (c as int - '0' as int) as nat else 0
  }

  predicate IsDigit(c: char) {
    '0' <= c <= '9'
  }

  /** The text JavaScript produces for a non-negative integer: its decimal
      digits, most significant first, without leading zeros. */
  function Decimal(n: nat): (r: string)
    ensures |r| >= 1
    ensures forall i | 0 <= i < |r| :: IsDigit(r[i])
    ensures |r| > 1 ==> r[0] != '0'
    ensures n < 10 <==> |r| == 1
  {
    if n < 10 then [DigitChar(n)] else Decimal(n / 10) + [DigitChar(n % 10)]
  }

  /** Reads a string of decimal digits back into a number. */
  function ParseDecimal(s: string): nat {
    if s == [] then 0 else 10 * ParseDecimal(s[..|s| - 1]) + DigitValue(s[|s| - 1])
  }

  lemma {:induction false} DecimalRoundTrip(n: nat)
    ensures ParseDecimal(Decimal(n)) == n
  {
    if n >= 10 {
      var s := Decimal(n);
      assert s[..|s| - 1] == Decimal(n / 10);
      DecimalRoundTrip(n / 10);
    }
  }

  /** The text a template literal produces for any integer: a minus sign
      exactly for negatives, then decimal digits. */
  function IntText(i: int): (r: string)
    ensures |r| >= 1 && (r[0] == '-' <==> i < 0)
    ensures forall k | (if i < 0 then 1 else 0) <= k < |r| :: IsDigit(r[k])
    ensures var d := if i < 0 then 1 else 0; |r| > d + 1 ==> r[d] != '0'
  {
    if i < 0 then
      var r := "-" + Decimal(-i);
      assert r[1..] == Decimal(-i);
      r
    else Decimal(i)
  }

  /** Reads an optionally signed string of decimal digits. */
  function ParseInt(s: string): int {
    if |s| > 0 && s[0] == '-' then -(ParseDecimal(s[1..]) as int) else ParseDecimal(s)
  }

  /** Reading the printed integer back gives the integer. */
  lemma IntTextRoundTrip(i: int)
    ensures ParseInt(IntText(i)) == i
  {
    var s := IntText(i);
    if i < 0 {
      var d := Decimal(-i);
      assert s == "-" + d;
      assert s[1..] == d;
      DecimalRoundTrip(-i);
    } else {
      assert IsDigit(s[0]);
      DecimalRoundTrip(i);
    }
  }

}
