/**
 * The parts of Rust's `str` API that the printer-output parsers and the file
 * rules use, written over `string` (a sequence of Unicode scalar values).
 */
module Text {
  import opened Wrappers

  /** `char::is_whitespace`: the Unicode White_Space property. */
  predicate IsWhitespace(c: char) {
    || c == ' '
    || ('\t' <= c <= '\r')
    || c == '\U{0085}' || c == '\U{00A0}' || c == '\U{1680}'
    || ('\U{2000}' <= c <= '\U{200A}')
    || c == '\U{2028}' || c == '\U{2029}' || c == '\U{202F}'
    || c == '\U{205F}' || c == '\U{3000}'
  }

  /** `str::starts_with` for a string pattern. */
  predicate StartsWith(s: string, prefix: string) {
    |prefix| <= |s| && s[..|prefix|] == prefix
  }

  /** `str::starts_with` for a `char` pattern. */
  predicate StartsWithChar(s: string, c: char) {
    |s| > 0 && s[0] == c
  }

  /** `str::ends_with` for a string pattern. */
  predicate EndsWith(s: string, suffix: string) {
    |suffix| <= |s| && s[|s| - |suffix|..] == suffix
  }

  /** `sub` occurs in `s` starting at index `k`. */
  predicate OccursAt(s: string, sub: string, k: nat) {
    k + |sub| <= |s| && s[k..k + |sub|] == sub
  }

  /** `str::find`: the index of the first occurrence of `sub` in `s`. */
  function Find(s: string, sub: string): (r: Option<nat>)
    ensures r.Some? ==> OccursAt(s, sub, r.value)
    ensures r.Some? ==> forall j :: 0 <= j < r.value ==> !OccursAt(s, sub, j)
    ensures r.None? ==> forall j :: 0 <= j ==> !OccursAt(s, sub, j)
  {
    FindFrom(s, sub, 0)
  }

  /** The first occurrence of `sub` in `s` at an index no smaller than `k`. */
  function FindFrom(s: string, sub: string, k: nat): (r: Option<nat>)
    requires k <= |s|
    ensures r.Some? ==> k <= r.value && OccursAt(s, sub, r.value)
    ensures r.Some? ==> forall j :: k <= j < r.value ==> !OccursAt(s, sub, j)
    ensures r.None? ==> forall j :: k <= j ==> !OccursAt(s, sub, j)
    decreases |s| - k
  {
    if OccursAt(s, sub, k) then Some(k)
    else if k == |s| then None
    else FindFrom(s, sub, k + 1)
  }

  /** `str::contains` for a string pattern. */
  predicate Contains(s: string, sub: string) {
    Find(s, sub).Some?
  }

  /** `str::find` for a single character. */
  function IndexOf(s: string, c: char): (r: Option<nat>)
    ensures r.Some? ==> r.value < |s| && s[r.value] == c && c !in s[..r.value]
    ensures r.None? <==> c !in s
  {
    if |s| == 0 then None
    else if s[0] == c then Some(0)
    else
      match IndexOf(s[1..], c)
      case None => None
      case Some(i) =>
        assert s[..i + 1] == [s[0]] + s[1..][..i];
        Some(i + 1)
  }

  /** `str::split_once` for a single character: the text before and after its first occurrence. */
  function SplitOnce(s: string, c: char): (r: Option<(string, string)>)
    ensures r.Some? ==> s == r.value.0 + [c] + r.value.1 && c !in r.value.0
    ensures r.None? <==> c !in s
  {
    match IndexOf(s, c)
    case None => None
    case Some(i) =>
      assert s == s[..i] + [c] + s[i + 1..];
      Some((s[..i], s[i + 1..]))
  }

  /** The pieces `Split` produces, put back together with the separator between them. */
  function Join(parts: seq<string>, c: char): string
    requires |parts| >= 1
  {
    if |parts| == 1 then parts[0] else parts[0] + [c] + Join(parts[1..], c)
  }

  /** `str::split` for a single character, collected: never empty, pieces free of the separator. */
  function Split(s: string, c: char): (r: seq<string>)
    ensures |r| >= 1
    ensures forall i :: 0 <= i < |r| ==> c !in r[i]
    decreases |s|
  {
    match SplitOnce(s, c)
    case None => [s]
    case Some((head, tail)) =>
      var rest := Split(tail, c);
      assert ([head] + rest)[1..] == rest;
      [head] + rest
  }

  /** Joining the pieces with the separator gives back the text. */
  lemma {:induction false} JoinOfSplit(s: string, c: char)
    ensures Join(Split(s, c), c) == s
    decreases |s|
  {
    match SplitOnce(s, c)
    case None =>
    case Some((head, tail)) =>
      JoinOfSplit(tail, c);
      var rest := Split(tail, c);
      assert ([head] + rest)[1..] == rest;
  }

  /** `str::trim_start`. */
  function TrimStart(s: string): (r: string)
    ensures |r| <= |s| && r == s[|s| - |r|..]
    ensures forall i :: 0 <= i < |s| - |r| ==> IsWhitespace(s[i])
    ensures |r| > 0 ==> !IsWhitespace(r[0])
  {
    if |s| > 0 && IsWhitespace(s[0]) then TrimStart(s[1..]) else s
  }

  /** `str::trim_end`. */
  function TrimEnd(s: string): (r: string)
    ensures |r| <= |s| && r == s[..|r|]
    ensures forall i :: |r| <= i < |s| ==> IsWhitespace(s[i])
    ensures |r| > 0 ==> !IsWhitespace(r[|r| - 1])
  {
    if |s| > 0 && IsWhitespace(s[|s| - 1]) then TrimEnd(s[..|s| - 1]) else s
  }

  /** `str::trim`: whitespace removed from both ends. */
  function Trim(s: string): (r: string)
    ensures |r| > 0 ==> !IsWhitespace(r[0]) && !IsWhitespace(r[|r| - 1])
    ensures |r| <= |s|
    ensures (forall i :: 0 <= i < |s| ==> !IsWhitespace(s[i])) ==> r == s
    ensures exists i, j :: 0 <= i <= j <= |s| && r == s[i..j]
                           && (forall k :: 0 <= k < i ==> IsWhitespace(s[k]))
                           && (forall k :: j <= k < |s| ==> IsWhitespace(s[k]))
  {
    TrimsCutWhitespaceEnds(s);
    TrimEnd(TrimStart(s))
  }

  /** Trimming both ends leaves a slice of `s` with only whitespace cut on either side. */
  lemma TrimsCutWhitespaceEnds(s: string)
    ensures exists i, j :: 0 <= i <= j <= |s| && TrimEnd(TrimStart(s)) == s[i..j]
                           && (forall k :: 0 <= k < i ==> IsWhitespace(s[k]))
                           && (forall k :: j <= k < |s| ==> IsWhitespace(s[k]))
  {
    var t := TrimStart(s);
    var u := TrimEnd(t);
    assert |t| <= |s| && t == s[|s| - |t|..];
    assert |u| <= |t| && u == t[..|u|];
    WhitespaceCutSlice(s, t, u);
  }

  /** A whitespace-cut prefix of a whitespace-cut suffix of `s` is a slice of `s` cut on either side. */
  lemma WhitespaceCutSlice(s: string, t: string, u: string)
    requires |t| <= |s| && t == s[|s| - |t|..]
    requires forall k :: 0 <= k < |s| - |t| ==> IsWhitespace(s[k])
    requires |u| <= |t| && u == t[..|u|]
    requires forall k :: |u| <= k < |t| ==> IsWhitespace(t[k])
    ensures exists i, j :: 0 <= i <= j <= |s| && u == s[i..j]
                           && (forall k :: 0 <= k < i ==> IsWhitespace(s[k]))
                           && (forall k :: j <= k < |s| ==> IsWhitespace(s[k]))
  {
    var i := |s| - |t|;
    var j := i + |u|;
    assert u == s[i..j];
    forall k | j <= k < |s|
      ensures IsWhitespace(s[k])
    {
      assert s[k] == t[k - i];
    }
  }

  /** `str::trim_start_matches` for a single character: every leading `c` removed. */
  function TrimStartMatches(s: string, c: char): (r: string)
    ensures |r| <= |s| && r == s[|s| - |r|..]
    ensures forall i :: 0 <= i < |s| - |r| ==> s[i] == c
    ensures |r| > 0 ==> r[0] != c
  {
    if |s| > 0 && s[0] == c then TrimStartMatches(s[1..], c) else s
  }

  /** A piece of `split_whitespace` output: non-empty and free of whitespace. */
  predicate IsToken(t: string) {
    |t| > 0 && forall j :: 0 <= j < |t| ==> !IsWhitespace(t[j])
  }

  /** The length of the longest whitespace-free prefix of `s`. */
  function TokenLength(s: string): (n: nat)
    ensures n <= |s|
    ensures forall i :: 0 <= i < n ==> !IsWhitespace(s[i])
    ensures n == |s| || IsWhitespace(s[n])
  {
    if |s| == 0 || IsWhitespace(s[0]) then 0 else 1 + TokenLength(s[1..])
  }

  /** `str::split_whitespace`, collected: the maximal whitespace-free runs, in order. */
  function SplitWhitespace(s: string): (r: seq<string>)
    ensures forall i :: 0 <= i < |r| ==> IsToken(r[i])
    decreases |s|
  {
    if |s| == 0 then []
    else if IsWhitespace(s[0]) then SplitWhitespace(s[1..])
    else
      var n := TokenLength(s);
      [s[..n]] + SplitWhitespace(s[n..])
  }

  /** A text free of whitespace is one word. */
  lemma SplitWhitespaceOfToken(t: string)
    requires IsToken(t)
    ensures SplitWhitespace(t) == [t]
  {
    assert TokenLength(t) == |t| && !IsWhitespace(t[0]);
    assert t[..|t|] == t;
    assert SplitWhitespace(t[|t|..]) == [];
  }

  /** Within a text of the form a, whitespace, b, the longest whitespace-free prefix lies within a. */
  lemma TokenLengthBeforeWhitespace(a: string, c: char, b: string)
    requires IsWhitespace(c)
    ensures TokenLength(a + [c] + b) == TokenLength(a)
  {
    var s := a + [c] + b;
    var n := TokenLength(s);
    var m := TokenLength(a);
    assert s[m] == if m == |a| then c else a[m];
    assert forall j :: 0 <= j < |a| ==> s[j] == a[j];
  }

  /** A whitespace character separates the words before it from the words after it. */
  lemma {:induction false} SplitWhitespaceAtWhitespace(a: string, c: char, b: string)
    requires IsWhitespace(c)
    ensures SplitWhitespace(a + [c] + b) == SplitWhitespace(a) + SplitWhitespace(b)
    decreases |a|
  {
    var s := a + [c] + b;
    if |a| == 0 {
      assert s[1..] == b;
    } else if IsWhitespace(a[0]) {
      assert s[1..] == a[1..] + [c] + b;
      SplitWhitespaceAtWhitespace(a[1..], c, b);
    } else {
      TokenLengthBeforeWhitespace(a, c, b);
      var n := TokenLength(a);
      assert s[..n] == a[..n];
      assert s[n..] == a[n..] + [c] + b;
      SplitWhitespaceAtWhitespace(a[n..], c, b);
    }
  }

  /** Two words joined by a character that is not whitespace form one word. */
  lemma TokensJoined(a: string, c: char, b: string)
    requires IsToken(a) && IsToken(b) && !IsWhitespace(c)
    ensures IsToken(a + [c] + b)
  {
    var w := a + [c] + b;
    forall j | 0 <= j < |w| ensures !IsWhitespace(w[j]) {
      if j < |a| { assert w[j] == a[j]; }
      else if j > |a| { assert w[j] == b[j - |a| - 1]; }
    }
  }

  /** A word followed by a space and more text: the word, then the words of the text. */
  lemma SplitWhitespaceOfWordThen(t: string, rest: string)
    requires IsToken(t)
    ensures SplitWhitespace(t + " " + rest) == [t] + SplitWhitespace(rest)
  {
    assert t + " " + rest == t + [' '] + rest;
    SplitWhitespaceAtWhitespace(t, ' ', rest);
    SplitWhitespaceOfToken(t);
  }

  /** Two words, each followed by a space, then more text. */
  lemma SplitWhitespaceOfTwoWordsThen(a: string, b: string, rest: string)
    requires IsToken(a) && IsToken(b)
    ensures SplitWhitespace(a + " " + (b + " " + rest)) == [a, b] + SplitWhitespace(rest)
  {
    var t, r := b + " " + rest, SplitWhitespace(rest);
    SplitWhitespaceOfWordThen(b, rest);
    SplitWhitespaceOfWordThen(a, t);
    assert [a] + ([b] + r) == [a, b] + r;
  }

  /** Four words, each followed by a space, then more text. */
  lemma SplitWhitespaceOfFourWordsThen(a: string, b: string, c: string, d: string, rest: string)
    requires IsToken(a) && IsToken(b) && IsToken(c) && IsToken(d)
    ensures SplitWhitespace(a + " " + (b + " " + (c + " " + (d + " " + rest)))) == [a, b, c, d] + SplitWhitespace(rest)
  {
    var tail := c + " " + (d + " " + rest);
    SplitWhitespaceOfTwoWordsThen(c, d, rest);
    SplitWhitespaceOfTwoWordsThen(a, b, tail);
    assert [a, b] + ([c, d] + SplitWhitespace(rest)) == [a, b, c, d] + SplitWhitespace(rest);
  }

  /** `line` with one trailing carriage return removed. */
  function StripCarriageReturn(line: string): string {
    if |line| > 0 && line[|line| - 1] == '\r' then line[..|line| - 1] else line
  }

  /**
   * `str::lines`: split at "\n" (a "\r" before it is dropped); a final line
   * ending adds no empty line.
   */
  function Lines(s: string): (r: seq<string>)
    ensures forall i :: 0 <= i < |r| ==> '\n' !in r[i]
    ensures s == [] ==> r == []
    ensures '\n' !in s && s != [] ==> r == [s]
    decreases |s|
  {
    match SplitOnce(s, '\n')
    case None => if s == [] then [] else [s]
    case Some((line, rest)) => [StripCarriageReturn(line)] + Lines(rest)
  }

  /** The text up to the first line feed, its carriage return dropped, is the first line; the rest are the lines after it. */
  lemma LinesAtLineFeed(a: string, b: string)
    requires '\n' !in a
    ensures Lines(a + "\n" + b) == [StripCarriageReturn(a)] + Lines(b)
  {
    var s := a + "\n" + b;
    assert s == a + ['\n'] + b;
    assert s[|a|] == '\n' && s[..|a|] == a && s[|a| + 1..] == b;
    assert IndexOf(s, '\n') == Some(|a|);
  }

  /** A separator that occurs splits the text into at least two pieces. */
  lemma SplitAtSeparator(s: string, c: char)
    requires c in s
    ensures |Split(s, c)| >= 2
  {
    var (head, tail) := SplitOnce(s, c).value;
    assert Split(s, c) == [head] + Split(tail, c);
  }

  /** The index of the first string in `items` that starts with `prefix`. */
  function FirstStartingWith(items: seq<string>, prefix: string): (r: Option<nat>)
    ensures r.Some? ==> r.value < |items| && StartsWith(items[r.value], prefix)
    ensures r.Some? ==> forall j :: 0 <= j < r.value ==> !StartsWith(items[j], prefix)
    ensures r.None? <==> forall j :: 0 <= j < |items| ==> !StartsWith(items[j], prefix)
  {
    if |items| == 0 then None
    else if StartsWith(items[0], prefix) then Some(0)
    else
      match FirstStartingWith(items[1..], prefix)
      case None => None
      case Some(k) => Some(k + 1)
  }

  predicate IsDigit(c: char) {
    '0' <= c <= '9'
  }

  predicate AllDigits(s: string) {
    forall i :: 0 <= i < |s| ==> IsDigit(s[i])
  }

  /** The decimal value of a string of digits (0 for the empty string). */
  function DigitsValue(s: string): nat
    requires AllDigits(s)
    decreases |s|
  {
    if |s| == 0 then 0
    else 10 * DigitsValue(s[..|s| - 1]) + (s[|s| - 1] as int - '0' as int)
  }

  /** The largest `u32`. */
  const U32Max: nat := 0xFFFF_FFFF

  /** The length of the optional leading '+' that `parse::<u32>` accepts. */
  function SignLength(s: string): (k: nat)
    ensures k <= |s| && k <= 1
    ensures k == 1 <==> |s| > 0 && s[0] == '+'
  {
    if |s| > 0 && s[0] == '+' then 1 else 0
  }

  /**
   * `str::parse::<u32>`: an optional leading '+', then one or more decimal
   * digits and nothing else (no whitespace), with a value that fits in 32 bits.
   */
  function ParseU32(s: string): (r: Option<nat>)
    ensures r.Some? ==> r.value <= U32Max
    ensures var digits := s[SignLength(s)..];
            r.Some? <==> |digits| > 0 && AllDigits(digits) && DigitsValue(digits) <= U32Max
    ensures var digits := s[SignLength(s)..];
            r.Some? ==> r.value == DigitsValue(digits)
    ensures |s| == 0 || (|s| == 1 && s[0] == '+') ==> r.None?
  {
    var digits := s[SignLength(s)..];
    if |digits| == 0 || !AllDigits(digits) then None
    else
      var v := DigitsValue(digits);
      if v > U32Max then None else Some(v)
  }

  /** `u32::to_string`: the shortest decimal representation. */
  function NatToString(n: nat): (r: string)
    ensures |r| >= 1 && AllDigits(r)
    ensures |r| > 1 ==> r[0] != '0'
    decreases n
  {
    var digit := ['0' + ((n % 10) as char)];
    if n < 10 then digit else NatToString(n / 10) + digit
  }

  /** Reading back the decimal representation gives the number. */
  lemma {:induction false} DigitsValueOfNatToString(n: nat)
    ensures DigitsValue(NatToString(n)) == n
    decreases n
  {
    var digit := ['0' + ((n % 10) as char)];
    if n >= 10 {
      var prefix := NatToString(n / 10);
      assert NatToString(n) == prefix + digit;
      assert NatToString(n)[..|NatToString(n)| - 1] == prefix;
      DigitsValueOfNatToString(n / 10);
    }
  }

  /** Every `u32`, printed and parsed back, is itself. */
  lemma ParseU32OfNatToString(n: nat)
    requires n <= U32Max
    ensures ParseU32(NatToString(n)) == Some(n)
  {
    DigitsValueOfNatToString(n);
    assert NatToString(n)[0..] == NatToString(n);
  }

  /** A leading zero does not change the value of a digit string. */
  lemma {:induction false} DigitsValueOfLeadingZero(s: string)
    requires AllDigits(s)
    ensures AllDigits("0" + s) && DigitsValue("0" + s) == DigitsValue(s)
    decreases |s|
  {
    var z := "0" + s;
    assert forall i :: 0 < i < |z| ==> z[i] == s[i - 1];
    if |s| > 0 {
      var init := s[..|s| - 1];
      assert z[..|z| - 1] == "0" + init;
      assert z[|z| - 1] == s[|s| - 1];
      DigitsValueOfLeadingZero(init);
    }
  }

  /** `parse::<u32>` ignores a leading zero in front of digits. */
  lemma ParseU32OfLeadingZero(digits: string)
    requires |digits| > 0 && AllDigits(digits)
    ensures ParseU32("0" + digits) == ParseU32(digits)
  {
    DigitsValueOfLeadingZero(digits);
    assert ("0" + digits)[0..] == "0" + digits;
    assert digits[0..] == digits;
  }

  /** `parse::<u32>` reads the digits after a leading '+' as it reads them alone. */
  lemma ParseU32OfPlus(digits: string)
    requires |digits| > 0 && AllDigits(digits)
    ensures ParseU32("+" + digits) == ParseU32(digits)
  {
    assert ("+" + digits)[1..] == digits;
    assert digits[0..] == digits;
  }

  /** "7" reads as 7. */
  lemma ParseU32OfSeven()
    ensures ParseU32("7") == Some(7)
  {
    assert "7"[0..] == "7";
    assert DigitsValue("7"[..0]) == 0;
  }

  /** A '+' sign and leading zeros are accepted: "+7" and "007" both read as 7. */
  lemma ParseU32OfSignAndZeros()
    ensures ParseU32("+7") == Some(7) && ParseU32("007") == Some(7)
  {
    var seven, zeroSeven := "7", "07";
    ParseU32OfSeven();
    ParseU32OfPlus(seven);
    assert "+" + seven == "+7";
    ParseU32OfLeadingZero(seven);
    assert "0" + seven == zeroSeven;
    ParseU32OfLeadingZero(zeroSeven);
    assert "0" + zeroSeven == "007";
  }

  /** A number above the largest `u32`, written in decimal, is refused. */
  lemma ParseU32OfNatToStringAboveBound(n: nat)
    requires n > U32Max
    ensures ParseU32(NatToString(n)).None?
  {
    DigitsValueOfNatToString(n);
    assert NatToString(n)[0..] == NatToString(n);
  }

  /** The text after the last `c` (all of `s` when it has none): what `split(c).next_back()` yields. */
  function LastPiece(s: string, c: char): (r: string)
    ensures c !in r
    ensures |r| <= |s|
    decreases |s|
  {
    if |s| == 0 || s[|s| - 1] == c then [] else LastPiece(s[..|s| - 1], c) + [s[|s| - 1]]
  }

  /** The last piece is a suffix of the text, and it is all of the text or follows a separator. */
  lemma {:induction false} LastPieceIsMaximalSuffix(s: string, c: char)
    ensures var r := LastPiece(s, c);
            && s[|s| - |r|..] == r
            && (|r| < |s| ==> s[|s| - |r| - 1] == c)
    decreases |s|
  {
    if |s| > 0 && s[|s| - 1] != c {
      var init := s[..|s| - 1];
      LastPieceIsMaximalSuffix(init, c);
      var r := LastPiece(init, c);
      assert init[|init| - |r|..] == r;
      assert s[|s| - |r| - 1..] == init[|init| - |r|..] + [s[|s| - 1]];
    }
  }

  /** Text free of the separator is its own last piece. */
  lemma {:induction false} LastPieceOfFree(s: string, c: char)
    requires c !in s
    ensures LastPiece(s, c) == s
    decreases |s|
  {
    if |s| > 0 {
      assert s[..|s| - 1] + [s[|s| - 1]] == s;
      LastPieceOfFree(s[..|s| - 1], c);
    }
  }

  /** Whatever comes before a separator does not affect the last piece. */
  lemma {:induction false} LastPieceAfterSeparator(head: string, c: char, tail: string)
    ensures LastPiece(head + [c] + tail, c) == LastPiece(tail, c)
    decreases |tail|
  {
    var s := head + [c] + tail;
    if |tail| > 0 {
      var init := tail[..|tail| - 1];
      assert s[..|s| - 1] == head + [c] + init;
      assert s[|s| - 1] == tail[|tail| - 1];
      LastPieceAfterSeparator(head, c, init);
    }
  }

  /** The last piece `Split` produces is the `LastPiece`. */
  lemma {:induction false} SplitEndsWithLastPiece(s: string, c: char)
    ensures var parts := Split(s, c); parts[|parts| - 1] == LastPiece(s, c)
    decreases |s|
  {
    match SplitOnce(s, c)
    case None =>
      LastPieceOfFree(s, c);
    case Some((head, tail)) =>
      SplitEndsWithLastPiece(tail, c);
      LastPieceAfterSeparator(head, c, tail);
  }

  /** The last piece `Split` produces is the text after the last separator. */
  lemma SplitLastPiece(prefix: string, c: char, suffix: string)
    requires c !in suffix
    ensures var parts := Split(prefix + [c] + suffix, c); parts[|parts| - 1] == suffix
  {
    SplitEndsWithLastPiece(prefix + [c] + suffix, c);
    LastPieceAfterSeparator(prefix, c, suffix);
    LastPieceOfFree(suffix, c);
  }
}
