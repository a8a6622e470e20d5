/**
 * String operations of the original code: `trim`, `split(/\s+/)`, `toLowerCase`,
 * `toUpperCase`, `startsWith`, `includes`, `join`, and number formatting.
 * Whitespace is the ASCII set (space, tab, line feed, vertical tab, form feed,
 * carriage return); case mapping covers ASCII letters only.
 */
module Text {

  predicate IsSpace(c: char) {
    c == ' ' || ('\t' <= c <= '\r')
  }

  predicate NoSpace(s: string) {
    forall i :: 0 <= i < |s| ==> !IsSpace(s[i])
  }

  predicate AllSpace(s: string) {
    forall i :: 0 <= i < |s| ==> IsSpace(s[i])
  }

  /** `s` neither begins nor ends with whitespace. */
  predicate IsTrimmed(s: string) {
    s == [] || (!IsSpace(s[0]) && !IsSpace(s[|s| - 1]))
  }

  /** `trimStart()`: drops the leading whitespace run. */
  function TrimStart(s: string): (r: string)
    ensures |r| <= |s| && r == s[|s| - |r|..]
    ensures AllSpace(s[..|s| - |r|])
    ensures r == [] || !IsSpace(r[0])
  {
    if s != [] && IsSpace(s[0]) then
      var r := TrimStart(s[1..]);
      assert s[..|s| - |r|] == [s[0]] + s[1..][..|s| - 1 - |r|];
      r
    else s
  }

  /** `trimEnd()`: drops the trailing whitespace run. */
  function TrimEnd(s: string): (r: string)
    ensures |r| <= |s| && r == s[..|r|]
    ensures AllSpace(s[|r|..])
    ensures r == [] || !IsSpace(r[|r| - 1])
  {
    if s != [] && IsSpace(s[|s| - 1]) then
      var init := s[..|s| - 1];
      var r := TrimEnd(init);
      assert s[|r|..] == init[|r|..] + [s[|s| - 1]];
      AllSpaceSnoc(init[|r|..], s[|s| - 1]);
      r
    else s
  }

  /** A whitespace run followed by one more whitespace character is a whitespace run. */
  lemma AllSpaceSnoc(a: string, c: char)
    requires AllSpace(a) && IsSpace(c)
    ensures AllSpace(a + [c])
  {
  }

  /** `trim()`: what remains after removing the leading and the trailing whitespace runs. */
  function Trim(s: string): (r: string)
    ensures IsTrimmed(r)
    ensures |r| <= |s|
  {
    var t := TrimStart(s);
    var r := TrimEnd(t);
    assert r == [] || r[0] == t[0];
    r
  }

  /** The trimmed string is a contiguous slice of `s` with only whitespace around it. */
  lemma TrimIsSlice(s: string)
    ensures var r := Trim(s);
            exists i :: 0 <= i <= |s| - |r| && r == s[i..i + |r|] && AllSpace(s[..i]) && AllSpace(s[i + |r|..])
  {
    var t := TrimStart(s);
    var r := TrimEnd(t);
    var i := |s| - |t|;
    assert t == s[i..];
    assert r == t[..|r|] == s[i..i + |r|];
    assert s[i + |r|..] == t[|r|..];
    assert AllSpace(s[..i]) && AllSpace(s[i + |r|..]);
  }

  /** Trimming an already trimmed string changes nothing. */
  lemma TrimOfTrimmed(s: string)
    requires IsTrimmed(s)
    ensures Trim(s) == s
  {
  }

  /** `trim()` is idempotent. */
  lemma TrimIdempotent(s: string)
    ensures Trim(Trim(s)) == Trim(s)
  {
    TrimOfTrimmed(Trim(s));
  }

  /** Length of the leading run of non-whitespace characters. */
  function WordLength(s: string): (n: nat)
    ensures n <= |s|
    ensures NoSpace(s[..n])
    ensures n == |s| || IsSpace(s[n])
  {
    if s == [] || IsSpace(s[0]) then 0
    else
      var k := WordLength(s[1..]);
      assert s[..k + 1] == [s[0]] + s[1..][..k];
      k + 1
  }

  /**
   * `s.split(/\s+/)`: the pieces between maximal whitespace runs. A leading run
   * yields an empty first piece, a trailing run an empty last piece, and the empty
   * string yields one empty piece.
   */
  function SplitWs(s: string): (parts: seq<string>)
    ensures |parts| >= 1
    ensures forall k :: 0 <= k < |parts| ==> NoSpace(parts[k])
    ensures forall k :: 0 <= k < |parts| ==> |parts[k]| <= |s|
    decreases |s|
  {
    var n := WordLength(s);
    var rest := s[n..];
    if rest == [] then [s[..n]]
    else
      var tail := SplitWs(TrimStart(rest));
      ConsPieces(s[..n], tail, |TrimStart(rest)|, |s|);
      [s[..n]] + tail
  }

  /** A whitespace-free head before whitespace-free pieces, all within a length bound. */
  lemma ConsPieces(head: string, tail: seq<string>, inner: nat, bound: nat)
    requires NoSpace(head) && |head| <= bound && inner <= bound
    requires forall k :: 0 <= k < |tail| ==> NoSpace(tail[k])
    requires forall k :: 0 <= k < |tail| ==> |tail[k]| <= inner
    ensures forall k :: 0 <= k < |[head] + tail| ==> NoSpace(([head] + tail)[k])
    ensures forall k :: 0 <= k < |[head] + tail| ==> |([head] + tail)[k]| <= bound
  {
  }

  /**
   * Reference for the split, one character at a time: every maximal whitespace
   * run becomes a single space. `afterSpace` says whether the previous character
   * was whitespace.
   */
  function Squeeze(s: string, afterSpace: bool): string {
    if s == [] then []
    else if IsSpace(s[0]) then (if afterSpace then [] else " ") + Squeeze(s[1..], true)
    else [s[0]] + Squeeze(s[1..], false)
  }

  lemma {:induction false} SqueezeWord(w: string, t: string, afterSpace: bool)
    requires NoSpace(w) && w != []
    ensures Squeeze(w + t, afterSpace) == w + Squeeze(t, false)
    decreases |w|
  {
    assert (w + t)[1..] == w[1..] + t;
    if |w| > 1 {
      SqueezeWord(w[1..], t, false);
    }
  }

  lemma {:induction false} SqueezeSpaces(a: string, t: string, afterSpace: bool)
    requires AllSpace(a) && a != []
    ensures Squeeze(a + t, afterSpace) == (if afterSpace then "" else " ") + Squeeze(t, true)
    decreases |a|
  {
    assert (a + t)[1..] == a[1..] + t;
    if |a| > 1 {
      SqueezeSpaces(a[1..], t, true);
    }
  }

  /**
   * The pieces of `split(/\s+/)`, joined with single spaces, are the text with every
   * whitespace run squeezed to one space. As no piece holds whitespace, this
   * determines the pieces: they are exactly the maximal non-whitespace runs, in order,
   * with an empty piece for a leading or trailing run.
   */
  lemma {:induction false} SplitWsJoin(s: string)
    ensures Join(SplitWs(s), " ") == Squeeze(s, false)
    decreases |s|
  {
    var n := WordLength(s);
    var word, rest := s[..n], s[n..];
    if rest == [] {
      assert word == s;
      if s != [] {
        SqueezeWord(s, [], false);
        assert s + [] == s;
      }
    } else {
      var t := TrimStart(rest);
      var parts := SplitWs(s);
      var tail := SplitWs(t);
      assert parts == [word] + tail;
      assert parts[1..] == tail;
      assert Join(parts, " ") == word + " " + Join(tail, " ");
      SplitWsJoin(t);
      assert s == word + rest;
      SqueezeWordRest(word, rest);
    }
  }

  /** A word, then a whitespace run, then the rest, squeezes to the word, one space and the rest. */
  lemma SqueezeWordRest(word: string, rest: string)
    requires NoSpace(word) && rest != [] && IsSpace(rest[0])
    ensures Squeeze(word + rest, false) == word + " " + Squeeze(TrimStart(rest), false)
  {
    var after := Squeeze(TrimStart(rest), false);
    SqueezeRun(rest);
    if word != [] {
      assert Squeeze(word + rest, false) == word + (" " + after) by {
        SqueezeWord(word, rest, false);
      }
      assert word + (" " + after) == word + " " + after by {
        ConcatAssoc(word, " ", after);
      }
    } else {
      assert word + rest == rest;
      assert word + " " == " ";
    }
  }

  /** A leading whitespace run squeezes to one space. */
  lemma SqueezeRun(rest: string)
    requires rest != [] && IsSpace(rest[0])
    ensures Squeeze(rest, false) == " " + Squeeze(TrimStart(rest), false)
  {
    var t := TrimStart(rest);
    var lead := rest[..|rest| - |t|];
    assert rest == lead + t;
    SqueezeSpaces(lead, t, false);
    assert Squeeze(t, true) == Squeeze(t, false) by {
      assert t == [] || !IsSpace(t[0]);
    }
  }

  /** Every piece of a split is empty or non-empty: the `filter(Boolean)` count. */
  function NonEmptyCount(parts: seq<string>): (n: nat)
    ensures n <= |parts|
  {
    if parts == [] then 0
    else (if parts[0] != [] then 1 else 0) + NonEmptyCount(parts[1..])
  }

  /**
   * Reference count of words: the number of positions where a non-whitespace
   * character follows whitespace or the start of the text, scanned one character
   * at a time. `afterSpace` says whether the previous character was whitespace.
   */
  function WordStarts(s: string, afterSpace: bool): nat {
    if s == [] then 0
    else
      (if afterSpace && !IsSpace(s[0]) then 1 else 0) + WordStarts(s[1..], IsSpace(s[0]))
  }

  lemma {:induction false} WordStartsAppend(a: string, b: string, afterSpace: bool)
    ensures WordStarts(a + b, afterSpace)
         == WordStarts(a, afterSpace)
            + WordStarts(b, if a == [] then afterSpace else IsSpace(a[|a| - 1]))
  {
    if a == [] {
      assert a + b == b;
    } else {
      assert (a + b)[1..] == a[1..] + b;
      WordStartsAppend(a[1..], b, IsSpace(a[0]));
    }
  }

  lemma {:induction false} WordStartsOfWord(w: string, afterSpace: bool)
    requires NoSpace(w)
    ensures WordStarts(w, afterSpace) == if w != [] && afterSpace then 1 else 0
  {
    if w != [] {
      WordStartsOfWord(w[1..], false);
    }
  }

  lemma {:induction false} WordStartsOfSpaces(w: string, afterSpace: bool)
    requires AllSpace(w)
    ensures WordStarts(w, afterSpace) == 0
  {
    if w != [] {
      WordStartsOfSpaces(w[1..], true);
    }
  }

  /** Leading whitespace never starts a word. */
  lemma TrimStartWordStarts(s: string)
    ensures WordStarts(TrimStart(s), true) == WordStarts(s, true)
  {
    var t := TrimStart(s);
    var lead := s[..|s| - |t|];
    SplitAt(s, |s| - |t|);
    WordStartsAppend(lead, t, true);
    WordStartsOfSpaces(lead, true);
    if lead != [] {
      assert IsSpace(lead[|lead| - 1]);
    }
  }

  /** Trailing whitespace never starts a word. */
  lemma TrimEndWordStarts(s: string, afterSpace: bool)
    ensures WordStarts(TrimEnd(s), afterSpace) == WordStarts(s, afterSpace)
  {
    var t := TrimEnd(s);
    var tail := s[|t|..];
    SplitAt(s, |t|);
    WordStartsAppend(t, tail, afterSpace);
    WordStartsOfSpaces(tail, if t == [] then afterSpace else IsSpace(t[|t| - 1]));
  }

  /**
   * `split(/\s+/).filter(Boolean).length` counts exactly the word starts of the
   * character-by-character reference.
   */
  lemma {:induction false} SplitCountsWords(s: string)
    ensures NonEmptyCount(SplitWs(s)) == WordStarts(s, true)
    decreases |s|
  {
    var n := WordLength(s);
    var rest := s[n..];
    assert s == s[..n] + rest;
    WordStartsAppend(s[..n], rest, true);
    WordStartsOfWord(s[..n], true);
    if rest != [] {
      var parts := SplitWs(s);
      assert parts == [s[..n]] + SplitWs(TrimStart(rest));
      assert parts[1..] == SplitWs(TrimStart(rest));
      SplitCountsWords(TrimStart(rest));
      TrimStartWordStarts(rest);
      // `rest` starts with whitespace, so the flag after the word is irrelevant.
      assert IsSpace(rest[0]);
      assert WordStarts(rest, false) == WordStarts(rest, true);
      if n > 0 {
        assert !IsSpace(s[..n][n - 1]);
      }
    }
  }

  /** On a trimmed, non-empty string every piece of the split is a word. */
  lemma {:induction false} SplitTrimmedHasNoEmpty(s: string)
    requires IsTrimmed(s) && s != []
    ensures forall k :: 0 <= k < |SplitWs(s)| ==> SplitWs(s)[k] != []
    ensures NonEmptyCount(SplitWs(s)) == |SplitWs(s)|
    decreases |s|
  {
    var n := WordLength(s);
    var rest := s[n..];
    assert n > 0;
    if rest != [] {
      var t := TrimStart(rest);
      assert t != [] by {
        assert !IsSpace(rest[|rest| - 1]);
        assert s[|s| - 1] == rest[|rest| - 1];
      }
      assert IsTrimmed(t) by {
        assert t[|t| - 1] == rest[|rest| - 1];
      }
      SplitTrimmedHasNoEmpty(t);
      assert SplitWs(s) == [s[..n]] + SplitWs(t);
      assert SplitWs(s)[1..] == SplitWs(t);
    }
  }

  /** ASCII `toLowerCase` of one character. */
  function LowerChar(c: char): char {
    if 'A' <= c <= 'Z' then (c as int + 32) as char else c
  }

  /** ASCII `toUpperCase` of one character. */
  function UpperChar(c: char): char {
    if 'a' <= c <= 'z' then (c as int - 32) as char else c
  }

  /** `toLowerCase()`: every upper-case letter becomes its lower-case letter, nothing else moves. */
  function ToLower(s: string): (r: string)
    ensures |r| == |s|
    ensures forall i :: 0 <= i < |r| ==> !('A' <= r[i] <= 'Z')
    ensures forall i :: 0 <= i < |s| ==> !('A' <= s[i] <= 'Z') ==> r[i] == s[i]
    ensures forall i :: 0 <= i < |s| ==> 'A' <= s[i] <= 'Z' ==> r[i] as int == s[i] as int + 32
  {
    seq(|s|, i requires 0 <= i < |s| => LowerChar(s[i]))
  }

  /** `toUpperCase()`: every lower-case letter becomes its upper-case letter, nothing else moves. */
  function ToUpper(s: string): (r: string)
    ensures |r| == |s|
    ensures forall i :: 0 <= i < |r| ==> !('a' <= r[i] <= 'z')
    ensures forall i :: 0 <= i < |s| ==> !('a' <= s[i] <= 'z') ==> r[i] == s[i]
    ensures forall i :: 0 <= i < |s| ==> 'a' <= s[i] <= 'z' ==> r[i] as int == s[i] as int - 32
  {
    seq(|s|, i requires 0 <= i < |s| => UpperChar(s[i]))
  }

  /** Upper-casing twice is upper-casing once. */
  lemma ToUpperIdempotent(s: string)
    ensures ToUpper(ToUpper(s)) == ToUpper(s)
  {
  }

  /** Upper-casing loses nothing but case: lower-casing afterwards is lower-casing directly. */
  lemma LowerOfUpper(s: string)
    ensures ToLower(ToUpper(s)) == ToLower(s)
  {
  }

  predicate StartsWith(s: string, prefix: string) {
    |prefix| <= |s| && s[..|prefix|] == prefix
  }

  /** The first `n` elements, or all of them when there are fewer (`slice(0, n)`). */
  function Take<T>(s: seq<T>, n: nat): (r: seq<T>)
    ensures |r| == if |s| <= n then |s| else n
    ensures r == s[..|r|]
  {
    if |s| <= n then s else s[..n]
  }

  lemma ConcatAssoc<T>(a: seq<T>, b: seq<T>, c: seq<T>)
    ensures a + (b + c) == a + b + c
  {
  }

  /** A sequence is its prefix of any length followed by the rest. */
  lemma SplitAt<T>(s: seq<T>, i: nat)
    requires i <= |s|
    ensures s == s[..i] + s[i..]
  {
  }

  /** A non-empty sequence is its head followed by its tail. */
  lemma HeadTail<T>(s: seq<T>)
    requires s != []
    ensures s == [s[0]] + s[1..]
  {
  }

  /** `s.endsWith(suffix)`. */
  predicate EndsWith(s: string, suffix: string) {
    |suffix| <= |s| && s[|s| - |suffix|..] == suffix
  }

  /** `s.includes(sub)`: `sub` occurs at some position of `s`. */
  predicate Contains(s: string, sub: string)
    decreases |s|
  {
    StartsWith(s, sub) || (s != [] && Contains(s[1..], sub))
  }

  /** `parts.join(sep)`. */
  function Join(parts: seq<string>, sep: string): string {
    if parts == [] then ""
    else if |parts| == 1 then parts[0]
    else parts[0] + sep + Join(parts[1..], sep)
  }

  /** Joining two non-empty lists is joining each and putting one separator between. */
  lemma {:induction false} JoinConcat(a: seq<string>, b: seq<string>, sep: string)
    requires a != [] && b != []
    ensures Join(a + b, sep) == Join(a, sep) + sep + Join(b, sep)
  {
    if |a| == 1 {
      assert a + b == [a[0]] + b;
    } else {
      assert (a + b)[1..] == a[1..] + b;
      JoinConcat(a[1..], b, sep);
    }
  }

  lemma {:induction false} JoinSnoc(parts: seq<string>, x: string, sep: string)
    requires parts != []
    ensures Join(parts + [x], sep) == Join(parts, sep) + sep + x
  {
    if |parts| == 1 {
      assert parts + [x] == [parts[0], x];
    } else {
      assert (parts + [x])[1..] == parts[1..] + [x];
      JoinSnoc(parts[1..], x, sep);
    }
  }

  function DigitChar(d: nat): char
    requires d < 10
  {
    "0123456789"[d]
  }

  /** Decimal rendering of a natural number, as `String(n)` prints it. */
  function NatToString(n: nat): (r: string)
    ensures |r| >= 1
  {
    if n < 10 then [DigitChar(n)] else NatToString(n / 10) + [DigitChar(n % 10)]
  }

  /** Decimal rendering of an integer with a leading `-` when negative. */
  function IntToString(n: int): (r: string)
    ensures |r| >= 1
  {
    if n < 0 then "-" + NatToString(-n) else NatToString(n)
  }

  /** `String(n).padStart(width, "0")`. */
  function PadNat(n: nat, width: nat): (r: string)
    ensures |r| >= width
  {
    var digits := NatToString(n);
    if |digits| >= width then digits
    else seq(width - |digits|, _ => '0') + digits
  }
}
