/**
 * The text layout of the PDF export route (`app/api/export/pdf/route.ts`): the
 * greedy word wrap that breaks the echo summary and the message into lines of
 * at most 78 characters before they are drawn, and the 800-character cut of
 * the message.
 */
module PdfExport {
  import opened Wrappers
  import opened Text

  /** The line width both blocks are wrapped to. */
  const LineWidth: nat := 78

  /** The number of message characters that reach the page. */
  const MessageLimit: nat := 800

  /** The finished lines with the current line appended when it is not empty. */
  function Emit(lines: seq<string>, line: string): (r: seq<string>)
    ensures line == [] ==> r == lines
    ensures line != [] ==> r == lines + [line]
  {
    if line != [] then lines + [line] else lines
  }

  /**
   * The `forEach` of `wrapLines` over the remaining words, from the lines
   * finished so far and the line being filled: a word joins the current line
   * after one space when the result fits in `maxChars`, and otherwise the
   * current line is finished and the word starts the next one.
   */
  function WrapFrom(words: seq<string>, maxChars: nat, lines: seq<string>, line: string): seq<string>
    decreases |words|
  {
    if words == [] then Emit(lines, line)
    else
      var word := words[0];
      var next := if line != [] then line + " " + word else word;
      if |next| > maxChars then WrapFrom(words[1..], maxChars, Emit(lines, line), word)
      else WrapFrom(words[1..], maxChars, lines, next)
  }

  /** `wrapLines(text, maxChars)`: split at whitespace runs and fill lines greedily. */
  function WrapLines(text: string, maxChars: nat): (lines: seq<string>)
    ensures forall k :: 0 <= k < |lines| ==> lines[k] != []
    ensures forall k :: 0 <= k < |lines| ==> |lines[k]| <= maxChars || lines[k] in SplitWs(text)
  {
    var words := SplitWs(text);
    LinesFit(words, maxChars, [], [], words);
    var r := WrapFrom(words, maxChars, [], []);
    assert forall k :: 0 <= k < |r| ==> LineFits(r[k], maxChars, words);
    r
  }

  /** The block under "Echo Summary": the summary, or nothing when it is missing. */
  function SummaryLines(summary: Option<string>): (lines: seq<string>)
    ensures forall k :: 0 <= k < |lines| ==> lines[k] != []
    ensures forall k :: 0 <= k < |lines| ==> |lines[k]| <= LineWidth || lines[k] in SplitWs(summary.GetOr(""))
  {
    WrapLines(summary.GetOr(""), LineWidth)
  }

  /** The block under "Message": the first 800 characters of the message, wrapped. */
  function MessageLines(text: Option<string>): (lines: seq<string>)
    ensures forall k :: 0 <= k < |lines| ==> lines[k] != []
    ensures forall k :: 0 <= k < |lines| ==> |lines[k]| <= LineWidth || lines[k] in SplitWs(Take(text.GetOr(""), MessageLimit))
    ensures forall k :: 0 <= k < |lines| ==> |lines[k]| <= MessageLimit
  {
    var cut := Take(text.GetOr(""), MessageLimit);
    var lines := WrapLines(cut, LineWidth);
    assert forall k :: 0 <= k < |lines| ==> |lines[k]| <= LineWidth || |lines[k]| <= |cut|;
    lines
  }

  /** A line that is not empty and is either short enough or one whole word of `all`. */
  predicate LineFits(l: string, maxChars: nat, all: seq<string>) {
    l != [] && (|l| <= maxChars || l in all)
  }

  /**
   * The wrap emits no empty line, and a line longer than `maxChars` is a
   * single word that did not fit anywhere.
   */
  lemma {:induction false} LinesFit(words: seq<string>, maxChars: nat, lines: seq<string>, line: string, all: seq<string>)
    requires forall k :: 0 <= k < |lines| ==> LineFits(lines[k], maxChars, all)
    requires line == [] || |line| <= maxChars || line in all
    requires forall k :: 0 <= k < |words| ==> words[k] in all
    ensures forall k :: 0 <= k < |WrapFrom(words, maxChars, lines, line)| ==>
              LineFits(WrapFrom(words, maxChars, lines, line)[k], maxChars, all)
    decreases |words|
  {
    if words != [] {
      var word := words[0];
      var next := if line != [] then line + " " + word else word;
      assert forall k :: 0 <= k < |words[1..]| ==> words[1..][k] == words[k + 1];
      if |next| > maxChars {
        var done := Emit(lines, line);
        assert forall k :: 0 <= k < |done| ==> LineFits(done[k], maxChars, all) by {
          forall k | 0 <= k < |done|
            ensures LineFits(done[k], maxChars, all)
          {
            if k < |lines| {
              assert done[k] == lines[k];
            }
          }
        }
        LinesFit(words[1..], maxChars, done, word, all);
      } else {
        LinesFit(words[1..], maxChars, lines, next, all);
      }
    }
  }

  /** Replacing two neighbouring parts by the two joined with the separator does not change the join. */
  lemma JoinMerge(p: seq<string>, x: string, y: string, q: seq<string>, sep: string)
    ensures Join(p + [x + sep + y] + q, sep) == Join(p + [x, y] + q, sep)
  {
    var merged := [x + sep + y] + q;
    var split := [x, y] + q;
    assert split[1..] == [y] + q;
    if q != [] {
      assert ([y] + q)[1..] == q;
      assert merged[1..] == q;
    }
    assert Join(merged, sep) == Join(split, sep);
    if p != [] {
      JoinConcat(p, merged, sep);
      JoinConcat(p, split, sep);
    }
    assert p + [x + sep + y] + q == p + merged;
    assert p + [x, y] + q == p + split;
  }

  /**
   * No word is lost, reordered or split: when every word is non-empty, the
   * lines joined with one space are the words joined with one space.
   */
  lemma {:induction false} WrapKeepsWords(words: seq<string>, maxChars: nat, lines: seq<string>, line: string)
    requires forall k :: 0 <= k < |words| ==> words[k] != []
    ensures Join(WrapFrom(words, maxChars, lines, line), " ") == Join(Emit(lines, line) + words, " ")
    decreases |words|
  {
    if words == [] {
      assert Emit(lines, line) + words == Emit(lines, line);
    } else {
      var word, rest := words[0], words[1..];
      assert words == [word] + rest;
      var next := if line != [] then line + " " + word else word;
      if |next| > maxChars {
        WrapKeepsWords(rest, maxChars, Emit(lines, line), word);
        assert Emit(Emit(lines, line), word) + rest == Emit(lines, line) + words;
      } else if line != [] {
        WrapKeepsWords(rest, maxChars, lines, next);
        JoinMerge(lines, line, word, rest, " ");
        assert Emit(lines, next) + rest == lines + [line + " " + word] + rest;
        assert Emit(lines, line) + words == lines + [line, word] + rest;
      } else {
        WrapKeepsWords(rest, maxChars, lines, next);
        assert Emit(lines, next) + rest == Emit(lines, line) + words;
      }
    }
  }

  /** For text with no leading or trailing whitespace, the wrapped lines joined by spaces are its words joined by spaces. */
  lemma WrapLinesKeepsWords(text: string, maxChars: nat)
    requires IsTrimmed(text)
    ensures Join(WrapLines(text, maxChars), " ") == Join(SplitWs(text), " ")
  {
    if text == [] {
      WrapLinesEmpty(text, maxChars);
    } else {
      SplitTrimmedHasNoEmpty(text);
      WrapKeepsWords(SplitWs(text), maxChars, [], []);
      assert Emit([], []) + SplitWs(text) == SplitWs(text);
    }
  }

  /** The wrap emits at least as many lines as are already finished or being filled. */
  lemma {:induction false} WrapGrows(words: seq<string>, maxChars: nat, lines: seq<string>, line: string)
    ensures |WrapFrom(words, maxChars, lines, line)| >= |Emit(lines, line)|
    decreases |words|
  {
    if words != [] {
      var word := words[0];
      var next := if line != [] then line + " " + word else word;
      if |next| > maxChars {
        WrapGrows(words[1..], maxChars, Emit(lines, line), word);
      } else {
        WrapGrows(words[1..], maxChars, lines, next);
      }
    }
  }

  /** Every word is empty. */
  predicate Blank(words: seq<string>) {
    forall k :: 0 <= k < |words| ==> words[k] == []
  }

  /** Starting empty, the wrap emits nothing exactly when every word is empty. */
  lemma {:induction false} WrapEmpty(words: seq<string>, maxChars: nat)
    ensures WrapFrom(words, maxChars, [], []) == [] <==> Blank(words)
    decreases |words|
  {
    if words != [] {
      var word := words[0];
      if word == [] {
        WrapEmpty(words[1..], maxChars);
        assert WrapFrom(words, maxChars, [], []) == WrapFrom(words[1..], maxChars, [], []);
        assert forall k :: 0 <= k < |words[1..]| ==> words[1..][k] == words[k + 1];
      } else {
        WrapGrows(words[1..], maxChars, [], word);
      }
    }
  }

  /** A text splits into empty pieces only when it is all whitespace. */
  lemma {:induction false} SplitBlank(s: string)
    ensures Blank(SplitWs(s)) <==> AllSpace(s)
    decreases |s|
  {
    var n := WordLength(s);
    var rest := s[n..];
    if AllSpace(s) {
      assert n == 0;
      if rest != [] {
        var t := TrimStart(rest);
        assert t == [];
        assert SplitWs(t) == [[]];
        assert SplitWs(s) == [[]] + [[]];
      }
    } else {
      if n == 0 {
        assert rest == s;
        var t := TrimStart(rest);
        assert t != [];
        SplitBlank(t);
        assert s != [] && IsSpace(s[0]);
        assert SplitWs(s)[1..] == SplitWs(t);
        assert !AllSpace(t);
        assert SplitWs(s)[1] == SplitWs(t)[0];
      } else {
        assert SplitWs(s)[0] == s[..n];
      }
    }
  }

  /** `wrapLines` returns no line exactly when the text is empty or all whitespace. */
  lemma WrapLinesEmpty(text: string, maxChars: nat)
    ensures WrapLines(text, maxChars) == [] <==> AllSpace(text)
  {
    WrapEmpty(SplitWs(text), maxChars);
    SplitBlank(text);
    assert WrapLines(text, maxChars) == WrapFrom(SplitWs(text), maxChars, [], []);
  }

  /**
   * A trailing blank leaves a trailing space on the last line: `split` yields
   * an empty last word, and appending it to a non-empty line adds " ".
   */
  lemma TrailingBlankKept(word: string, maxChars: nat)
    requires word != [] && NoSpace(word) && |word| < maxChars
    ensures WrapLines(word + " ", maxChars) == [word + " "]
  {
    var s := word + " ";
    assert s[..|word|] == word;
    WordLengthAt(s, |word|);
    assert s[|word|..] == " ";
    assert TrimStart(" ") == [];
    assert SplitWs([]) == [[]];
    assert SplitWs(s) == [word, []];
    assert WrapFrom([word, []], maxChars, [], []) == WrapFrom([[]], maxChars, [], word);
    assert word + " " + [] == s;
  }

  /** Greediness: no line could also have taken the first word of the line after it. */
  predicate Greedy(lines: seq<string>, maxChars: nat) {
    forall i :: 0 <= i < |lines| - 1 ==> |lines[i]| + 1 + WordLength(lines[i + 1]) > maxChars
  }

  /** The line being filled could not have gone on the last finished line either. */
  predicate Pending(lines: seq<string>, line: string, maxChars: nat) {
    lines != [] ==> |lines[|lines| - 1]| + 1 + WordLength(line) > maxChars
  }

  /** `WordLength` is the position of the first whitespace, or the length when there is none. */
  lemma WordLengthAt(s: string, j: nat)
    requires j <= |s| && NoSpace(s[..j]) && (j == |s| || IsSpace(s[j]))
    ensures WordLength(s) == j
  {
    if j > 0 {
      assert s[..j][0] == s[0];
      assert s[1..][..j - 1] == s[..j][1..];
      WordLengthAt(s[1..], j - 1);
    }
  }

  /** Text appended after a space does not change the first word. */
  lemma WordLengthSpaced(a: string, b: string)
    ensures WordLength(a + " " + b) == WordLength(a)
  {
    var s := a + " " + b;
    var n := WordLength(a);
    assert s[..n] == a[..n];
    assert IsSpace(s[n]);
    WordLengthAt(s, n);
  }

  lemma GreedySnoc(lines: seq<string>, x: string, maxChars: nat)
    requires Greedy(lines, maxChars) && Pending(lines, x, maxChars)
    ensures Greedy(lines + [x], maxChars)
  {
  }

  lemma {:induction false} WrapGreedy(words: seq<string>, maxChars: nat, lines: seq<string>, line: string)
    requires forall k :: 0 <= k < |words| ==> NoSpace(words[k])
    requires Greedy(lines, maxChars) && Pending(lines, line, maxChars)
    ensures Greedy(WrapFrom(words, maxChars, lines, line), maxChars)
    decreases |words|
  {
    if words == [] {
      if line != [] {
        GreedySnoc(lines, line, maxChars);
      }
    } else {
      var word := words[0];
      var next := if line != [] then line + " " + word else word;
      assert WordLength(word) == |word|;
      assert forall k :: 0 <= k < |words[1..]| ==> words[1..][k] == words[k + 1];
      if |next| > maxChars {
        if line != [] {
          GreedySnoc(lines, line, maxChars);
        }
        WrapGreedy(words[1..], maxChars, Emit(lines, line), word);
      } else {
        if line != [] {
          WordLengthSpaced(line, word);
        }
        WrapGreedy(words[1..], maxChars, lines, next);
      }
    }
  }

  /**
   * The wrap is greedy: each line is followed by a line whose first word would
   * have pushed it past `maxChars`.
   */
  lemma WrapLinesGreedy(text: string, maxChars: nat)
    ensures var lines := WrapLines(text, maxChars);
            forall i :: 0 <= i < |lines| - 1 ==> |lines[i]| + 1 + WordLength(lines[i + 1]) > maxChars
  {
    WrapGreedy(SplitWs(text), maxChars, [], []);
  }
}
