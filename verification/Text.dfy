/** Splitting, joining and searching strings. */
module Text {
  import opened Wrappers

  // ---- Split and join -------------------------------------------------------

  function Split(s: string, sep: char): (parts: seq<string>)
    ensures |parts| > 0
  {
    if s == "" then [""]
    else
      var rest := Split(s[1..], sep);
      if s[0] == sep then [""] + rest else [[s[0]] + rest[0]] + rest[1..]
  }

  function Join(parts: seq<string>, sep: char): string
    requires |parts| > 0
  {
    if |parts| == 1 then parts[0] else parts[0] + [sep] + Join(parts[1..], sep)
  }

  ghost predicate Free(s: string, c: char) {
    c !in s
  }

  ghost predicate AllFree(parts: seq<string>, c: char) {
    forall i :: 0 <= i < |parts| ==> Free(parts[i], c)
  }

  lemma {:induction false} SplitParts(s: string, sep: char)
    ensures AllFree(Split(s, sep), sep)
    ensures Join(Split(s, sep), sep) == s
  {
    if s != "" {
      var rest := Split(s[1..], sep);
      SplitParts(s[1..], sep);
      var parts := Split(s, sep);
      if s[0] == sep {
        assert parts[1..] == rest;
      } else {
        assert |rest| > 1 ==> parts[1..] == rest[1..];
        assert s == [s[0]] + s[1..];
        if |rest| > 1 {
          assert Join(rest, sep) == rest[0] + [sep] + Join(rest[1..], sep);
          assert Join(parts, sep) == ([s[0]] + rest[0]) + [sep] + Join(rest[1..], sep);
        }
      }
    }
  }

  lemma {:induction false} SplitFirst(a: string, sep: char, rest: string)
    requires Free(a, sep)
    ensures Split(a + [sep] + rest, sep) == [a] + Split(rest, sep)
  {
    var s := a + [sep] + rest;
    if a == "" {
      assert s[1..] == rest;
    } else {
      SplitFirst(a[1..], sep, rest);
      assert s[1..] == a[1..] + [sep] + rest;
      assert [s[0]] + a[1..] == a;
    }
  }

  lemma {:induction false} SplitWhole(a: string, sep: char)
    requires Free(a, sep)
    ensures Split(a, sep) == [a]
  {
    if a != "" {
      SplitWhole(a[1..], sep);
      assert [a[0]] + a[1..] == a;
    }
  }

  lemma {:induction false} SplitJoined(parts: seq<string>, sep: char)
    requires |parts| > 0 && AllFree(parts, sep)
    ensures Split(Join(parts, sep), sep) == parts
  {
    if |parts| == 1 {
      SplitWhole(parts[0], sep);
    } else {
      SplitJoined(parts[1..], sep);
      SplitFirst(parts[0], sep, Join(parts[1..], sep));
    }
  }

  /** The last part on its own. */
  lemma {:induction false} JoinLast(init: seq<string>, last: string, sep: char)
    requires |init| > 0
    ensures Join(init + [last], sep) == Join(init, sep) + [sep] + last
  {
    if |init| == 1 {
      assert (init + [last])[1..] == [last];
    } else {
      JoinLast(init[1..], last, sep);
      assert (init + [last])[1..] == init[1..] + [last];
      var a, b, c := init[0] + [sep], Join(init[1..], sep), [sep] + last;
      assert a + (b + c) == (a + b) + c;
      assert a + (b + [sep] + last) == a + (b + c);
      assert (a + b) + [sep] + last == (a + b) + c;
    }
  }

  // ---- Counting and searching -------------------------------------------------

  function Count(s: string, c: char): nat {
    if s == "" then 0 else (if s[0] == c then 1 else 0) + Count(s[1..], c)
  }

  lemma {:induction false} CountAppend(a: string, b: string, c: char)
    ensures Count(a + b, c) == Count(a, c) + Count(b, c)
  {
    if a == "" {
      assert a + b == b;
    } else {
      CountAppend(a[1..], b, c);
      assert (a + b)[1..] == a[1..] + b;
    }
  }

  /** There is one more part than there are separators. */
  lemma {:induction false} SplitCount(s: string, sep: char)
    ensures |Split(s, sep)| == Count(s, sep) + 1
  {
    if s != "" {
      SplitCount(s[1..], sep);
    }
  }

  lemma {:induction false} CountFree(a: string, c: char)
    ensures Count(a, c) == 0 <==> Free(a, c)
  {
    if a != "" {
      CountFree(a[1..], c);
    }
  }

  /** Everything before and after the first `sep`. */
  function SplitOnce(s: string, sep: char): (r: Option<(string, string)>)
    ensures r.Some? ==> Free(r.value.0, sep) && s == r.value.0 + [sep] + r.value.1
    ensures r.None? ==> Free(s, sep)
  {
    if s == "" then None
    else if s[0] == sep then Some(("", s[1..]))
    else match SplitOnce(s[1..], sep)
      case Some((a, b)) => Some(([s[0]] + a, b))
      case None => None
  }

  lemma {:induction false} SplitOnceAt(a: string, sep: char, b: string)
    requires Free(a, sep)
    ensures SplitOnce(a + [sep] + b, sep) == Some((a, b))
  {
    var s := a + [sep] + b;
    if a == "" {
      assert s[1..] == b;
    } else {
      SplitOnceAt(a[1..], sep, b);
      assert s[1..] == a[1..] + [sep] + b;
      assert [s[0]] + a[1..] == a;
    }
  }

  /** The position of the last `c`, if there is one. */
  function LastIndex(s: string, c: char): (r: Option<nat>)
    ensures r.Some? ==> r.value < |s| && s[r.value] == c && Free(s[r.value + 1..], c)
    ensures r.None? ==> Free(s, c)
  {
    if s == "" then None
    else if s[|s| - 1] == c then Some(|s| - 1)
    else LastIndex(s[..|s| - 1], c)
  }

  function StripSuffix(s: string, suffix: string): (r: Option<string>)
    ensures r.Some? ==> s == r.value + suffix
    ensures r.None? ==> forall p :: s != p + suffix
  {
    if |suffix| <= |s| && s[|s| - |suffix|..] == suffix then Some(s[..|s| - |suffix|]) else None
  }

  // ---- White space ------------------------------------------------------------

  /** Unicode White_Space. */
  predicate IsSpace(c: char) {
    || c in "\t\n\U{0B}\U{0C}\r \U{85}\U{A0}\U{1680}\U{2028}\U{2029}\U{202F}\U{205F}\U{3000}"
    || '\U{2000}' <= c <= '\U{200A}'
  }

  function TrimStart(s: string): string {
    if s != "" && IsSpace(s[0]) then TrimStart(s[1..]) else s
  }

  function TrimEnd(s: string): string {
    if s != "" && IsSpace(s[|s| - 1]) then TrimEnd(s[..|s| - 1]) else s
  }

  function Trim(s: string): string {
    TrimEnd(TrimStart(s))
  }

  ghost predicate AllSpace(s: string) {
    forall i :: 0 <= i < |s| ==> IsSpace(s[i])
  }

  /** Taking away the white space at both ends of `s` leaves `core`. */
  ghost predicate Surrounds(s: string, core: string) {
    && (exists a: nat, b: nat :: a <= b <= |s| && core == s[a..b] && AllSpace(s[..a]) && AllSpace(s[b..]))
    && (core != "" ==> !IsSpace(core[0]) && !IsSpace(core[|core| - 1]))
  }

  lemma {:induction false} TrimStartMeans(s: string) returns (a: nat)
    ensures a <= |s| && TrimStart(s) == s[a..] && AllSpace(s[..a])
    ensures TrimStart(s) != "" ==> !IsSpace(TrimStart(s)[0])
  {
    hide IsSpace;
    a := 0;
    if s != "" && IsSpace(s[0]) {
      a := TrimStartMeans(s[1..]);
      assert s[1..][a..] == s[a + 1..];
      forall i | 0 <= i < a + 1 ensures IsSpace(s[i]) {
        assert i > 0 ==> s[1..][..a][i - 1] == s[i];
      }
      a := a + 1;
    }
  }

  lemma {:induction false} TrimEndMeans(s: string) returns (b: nat)
    ensures b <= |s| && TrimEnd(s) == s[..b] && AllSpace(s[b..])
    ensures TrimEnd(s) != "" ==> !IsSpace(TrimEnd(s)[|TrimEnd(s)| - 1])
  {
    hide IsSpace;
    b := |s|;
    if s != "" && IsSpace(s[|s| - 1]) {
      var init := s[..|s| - 1];
      b := TrimEndMeans(init);
      assert init[..b] == s[..b];
      forall i | b <= i < |s| ensures IsSpace(s[i]) {
        assert i < |s| - 1 ==> init[b..][i - b] == s[i];
      }
    }
  }

  lemma TrimMeans(s: string)
    ensures Surrounds(s, Trim(s))
  {
    hide IsSpace;
    var a := TrimStartMeans(s);
    var rest := TrimStart(s);
    var b := TrimEndMeans(rest);
    assert Trim(s) == s[a..a + b] && rest[b..] == s[a + b..];
    if Trim(s) != "" {
      assert Trim(s)[0] == rest[0];
    }
  }

  /** The words between runs of white space; `word` is the one being read. */
  function WordsFrom(s: string, word: string): seq<string> {
    if s == "" then (if word == "" then [] else [word])
    else if IsSpace(s[0]) then (if word == "" then [] else [word]) + WordsFrom(s[1..], "")
    else WordsFrom(s[1..], word + [s[0]])
  }

  function Words(s: string): seq<string> {
    WordsFrom(s, "")
  }

  function TrimEndChar(s: string, c: char): string {
    if s != "" && s[|s| - 1] == c then TrimEndChar(s[..|s| - 1], c) else s
  }

  ghost predicate NoSpace(s: string) {
    forall i :: 0 <= i < |s| ==> !IsSpace(s[i])
  }

  /** The text from `a` to `b` is a word: no white space in it, and white space or an end on both sides. */
  ghost predicate WordAt(s: string, a: nat, b: nat, w: string) {
    && a < b <= |s| && w == s[a..b] && NoSpace(w)
    && (a == 0 || IsSpace(s[a - 1])) && (b == |s| || IsSpace(s[b]))
  }

  ghost predicate IsWord(s: string, w: string) {
    exists a: nat, b: nat :: WordAt(s, a, b, w)
  }

  lemma OneWord(word: string, w: string)
    requires NoSpace(word)
    ensures IsWord(word, w) <==> word != "" && w == word
  {
    if word != "" {
      assert word[0..|word|] == word;
      assert WordAt(word, 0, |word|, word);
    }
  }

  lemma WordBefore(word: string, c: char, rest: string)
    requires NoSpace(word) && IsSpace(c) && word != ""
    ensures IsWord(word + [c] + rest, word)
  {
    hide IsSpace, NoSpace;
    var s := word + [c] + rest;
    assert s[0..|word|] == word && s[|word|] == c;
    assert WordAt(s, 0, |word|, word);
  }

  lemma WordAfter(before: string, c: char, rest: string, a: nat, b: nat, w: string)
    requires IsSpace(c) && WordAt(rest, a, b, w)
    ensures IsWord(before + [c] + rest, w)
  {
    hide IsSpace, NoSpace;
    var s, n := before + [c] + rest, |before| + 1;
    assert s[n + a..n + b] == rest[a..b];
    assert WordAt(s, n + a, n + b, w);
  }

  lemma WordOfTwo(word: string, c: char, rest: string, a: nat, b: nat, w: string)
    requires NoSpace(word) && IsSpace(c) && WordAt(word + [c] + rest, a, b, w)
    ensures (a == 0 && b == |word| && w == word) || (a > |word| && WordAt(rest, a - |word| - 1, b - |word| - 1, w))
  {
    hide IsSpace, NoSpace;
    var s, n := word + [c] + rest, |word| + 1;
    assert s[..|word|] == word && s[|word|] == c && s[n..] == rest;
    LettersOf(word, s, 0);
    LettersOf(w, s, a);
    if a >= n {
      assert rest[a - n..b - n] == s[a..b];
      assert a > n ==> rest[a - n - 1] == s[a - 1];
      assert b < |s| ==> rest[b - n] == s[b];
    }
  }

  /** No letter of a stretch without white space is white space. */
  lemma LettersOf(w: string, s: string, a: nat)
    requires NoSpace(w) && a + |w| <= |s| && s[a..a + |w|] == w
    ensures forall i :: a <= i < a + |w| ==> !IsSpace(s[i])
  {
    hide IsSpace;
    forall i | a <= i < a + |w| ensures !IsSpace(s[i]) {
      assert s[a..a + |w|][i - a] == s[i];
    }
  }

  /** Before white space stands the last word so far, after it the words of the rest. */
  lemma WordsApart(word: string, c: char, rest: string, w: string)
    requires NoSpace(word) && IsSpace(c)
    ensures IsWord(word + [c] + rest, w) <==> (word != "" && w == word) || IsWord(rest, w)
  {
    hide IsSpace, NoSpace;
    var s := word + [c] + rest;
    if word != "" {
      WordBefore(word, c, rest);
    }
    if IsWord(rest, w) {
      var a: nat, b: nat :| WordAt(rest, a, b, w);
      WordAfter(word, c, rest, a, b, w);
    }
    if IsWord(s, w) {
      var a: nat, b: nat :| WordAt(s, a, b, w);
      WordOfTwo(word, c, rest, a, b, w);
    }
  }

  lemma {:induction false} WordsFromMeans(s: string, word: string, w: string)
    requires NoSpace(word)
    ensures w in WordsFrom(s, word) <==> IsWord(word + s, w)
    decreases |s|
  {
    hide IsSpace, NoSpace, IsWord;
    if s == "" {
      assert word + s == word;
      OneWord(word, w);
    } else if IsSpace(s[0]) {
      assert word + s == word + [s[0]] + s[1..];
      WordsApart(word, s[0], s[1..], w);
      assert NoSpace("") by { NothingSpaced(); }
      assert "" + s[1..] == s[1..];
      WordsFromMeans(s[1..], "", w);
    } else {
      assert word + s == (word + [s[0]]) + s[1..];
      OneMoreLetter(word, s[0]);
      WordsFromMeans(s[1..], word + [s[0]], w);
    }
  }

  lemma NothingSpaced()
    ensures NoSpace("")
  {
  }

  lemma OneMoreLetter(word: string, c: char)
    requires NoSpace(word) && !IsSpace(c)
    ensures NoSpace(word + [c])
  {
  }

  /** The words of a text are its stretches without white space. */
  lemma WordsMeans(s: string, w: string)
    ensures w in Words(s) <==> IsWord(s, w)
  {
    hide IsWord, WordsFrom;
    WordsFromMeans(s, "", w);
    assert "" + s == s;
  }

  /** Taking away a character at the end: what is left does not end in it, and only it was taken. */
  lemma {:induction false} TrimEndCharMeans(s: string, c: char)
    ensures var r := TrimEndChar(s, c);
            && |r| <= |s| && r == s[..|r|] && (forall i :: |r| <= i < |s| ==> s[i] == c)
            && (r != "" ==> r[|r| - 1] != c)
  {
    if s != "" && s[|s| - 1] == c {
      TrimEndCharMeans(s[..|s| - 1], c);
    }
  }

  // ---- Decimal numbers --------------------------------------------------------

  const U64_BOUND: nat := 0x1_0000_0000_0000_0000

  function DigitOf(n: nat): char {
    '0' + (n % 10) as char
  }

  function Decimal(n: nat): string {
    if n < 10 then [DigitOf(n)] else Decimal(n / 10) + [DigitOf(n)]
  }

  predicate IsDigit(c: char) {
    '0' <= c <= '9'
  }

  /** The number some digits spell, if that is all they are. */
  function Spelled(s: string): Option<nat> {
    if s == "" then Some(0)
    else match Spelled(s[..|s| - 1])
      case None => None
      case Some(n) =>
        var c := s[|s| - 1];
        if IsDigit(c) then Some(10 * n + (c as int - '0' as int)) else None
  }

  /** Parsing an unsigned 64-bit number: digits, perhaps after a plus sign. */
  function ParseU64(s: string): Option<nat> {
    var digits := if s != "" && s[0] == '+' then s[1..] else s;
    if digits == "" then None
    else match Spelled(digits)
      case None => None
      case Some(n) => if n < U64_BOUND then Some(n) else None
  }

  lemma SpelledAppend(s: string, n: nat, last: nat)
    requires Spelled(s) == Some(n)
    ensures Spelled(s + [DigitOf(last)]) == Some(10 * n + last % 10)
  {
    assert (s + [DigitOf(last)])[..|s|] == s;
  }

  lemma {:induction false} SpelledDecimal(n: nat)
    ensures Decimal(n) != "" && IsDigit(Decimal(n)[0]) && Spelled(Decimal(n)) == Some(n)
  {
    if n < 10 {
      SpelledAppend("", 0, n);
      assert "" + [DigitOf(n)] == [DigitOf(n)];
    } else {
      SpelledDecimal(n / 10);
      SpelledAppend(Decimal(n / 10), n / 10, n);
    }
  }

  /** A plus sign before digits changes nothing. */
  lemma PlusSign(s: string)
    requires s != "" && s[0] != '+'
    ensures ParseU64("+" + s) == ParseU64(s)
  {
    hide Spelled;
    assert ("+" + s)[1..] == s;
  }

  /** A number printed and parsed is the same number iff it fits 64 bits. */
  lemma DecimalRoundTrip(n: nat)
    ensures ParseU64(Decimal(n)) == if n < 0x1_0000_0000_0000_0000 then Some(n) else None
  {
    hide Spelled, Decimal;
    SpelledDecimal(n);
  }
}
