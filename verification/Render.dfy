/** Wrapping a unit's content: greedy line filling over whitespace-separated words, with widths counted
    in UTF-8 bytes. */
module Render {
  import opened Strings

  // ---------------------------------------------------------------------------
  // Bytes and words
  // ---------------------------------------------------------------------------

  function CharBytes(c: char): (n: nat)
    ensures n >= 1
  {
    var p := c as int;
    if p < 0x80 then 1 else if p < 0x800 then 2 else if p < 0x10000 then 3 else 4
  }

  function Pow2(k: nat): nat {
    if k == 0 then 1 else 2 * Pow2(k - 1)
  }

  /** A character takes the fewest bytes that hold it in UTF-8, where one byte carries 7 bits and `n` bytes
      carry 5 n + 1. */
  lemma CharBytesIsUtf8(c: char, n: nat)
    requires 1 <= n <= 4
    ensures CharBytes(c) <= n <==> c as int < Pow2(if n == 1 then 7 else 5 * n + 1)
    ensures CharBytes(c) <= 4
  {
    assert Pow2(5) == 32;
    assert Pow2(7) == 4 * Pow2(5);
    assert Pow2(10) == 8 * Pow2(7) && Pow2(11) == 0x800;
    assert Pow2(15) == 16 * Pow2(11) && Pow2(16) == 0x10000;
    assert Pow2(20) == 16 * Pow2(16) && Pow2(21) == 0x200000;
  }

  /** The length of a string as UTF-8. */
  function Bytes(s: string): nat {
    if s == "" then 0 else CharBytes(s[0]) + Bytes(s[1..])
  }

  lemma {:induction false} BytesAppend(s: string, t: string)
    ensures Bytes(s + t) == Bytes(s) + Bytes(t)
  {
    if s == "" {
      assert s + t == t;
    } else {
      BytesAppend(s[1..], t);
      assert (s + t)[1..] == s[1..] + t;
    }
  }

  predicate IsWord(w: string) {
    w != "" && forall i :: 0 <= i < |w| ==> !IsSpace(w[i])
  }

  /** The leading run of characters that are not whitespace. */
  function Run(s: string): (n: nat)
    ensures n <= |s|
    ensures forall i :: 0 <= i < n ==> !IsSpace(s[i])
    ensures n < |s| ==> IsSpace(s[n])
  {
    if s == "" || IsSpace(s[0]) then 0 else 1 + Run(s[1..])
  }

  /** split_whitespace */
  function Words(s: string): seq<string>
    decreases |s|
  {
    if s == "" then []
    else if IsSpace(s[0]) then Words(s[1..])
    else [s[..Run(s)]] + Words(s[Run(s)..])
  }

  ghost predicate AllWords(ws: seq<string>) {
    forall i :: 0 <= i < |ws| ==> IsWord(ws[i])
  }

  lemma {:induction false} WordsAreWords(s: string)
    ensures AllWords(Words(s))
    decreases |s|
  {
    if s != "" {
      if IsSpace(s[0]) {
        WordsAreWords(s[1..]);
      } else {
        WordsAreWords(s[Run(s)..]);
      }
    }
  }

  lemma {:induction false} RunAppend(s: string, t: string)
    requires t == "" || IsSpace(t[0])
    ensures Run(s + t) == Run(s)
  {
    hide IsSpace;
    if s == "" {
      assert s + t == t;
    } else if !IsSpace(s[0]) {
      RunAppend(s[1..], t);
      assert (s + t)[1..] == s[1..] + t;
    }
  }

  /** A whitespace character separates the words before it from the words after it. */
  lemma {:induction false} WordsSplitAtSpace(s: string, t: string)
    requires t != "" && IsSpace(t[0])
    ensures Words(s + t) == Words(s) + Words(t[1..])
    decreases |s|
  {
    hide IsSpace;
    if s == "" {
      assert s + t == t;
    } else if IsSpace(s[0]) {
      WordsSplitAtSpace(s[1..], t);
      assert (s + t)[1..] == s[1..] + t;
    } else {
      var n := Run(s);
      RunAppend(s, t);
      WordsSplitAtSpace(s[n..], t);
      assert (s + t)[..n] == s[..n] && (s + t)[n..] == s[n..] + t && (s + t)[0] == s[0];
      assert [s[..n]] + (Words(s[n..]) + Words(t[1..])) == [s[..n]] + Words(s[n..]) + Words(t[1..]);
    }
  }

  lemma WordsOfWord(w: string)
    requires IsWord(w)
    ensures Words(w) == [w]
  {
    assert Run(w) == |w|;
    assert w[..|w|] == w && Words(w[|w|..]) == [];
  }

  // ---------------------------------------------------------------------------
  // Layouts
  // ---------------------------------------------------------------------------

  /** The words of a line separated by single spaces. */
  function Line(ws: seq<string>): string {
    if ws == [] then "" else if |ws| == 1 then ws[0] else ws[0] + " " + Line(ws[1..])
  }

  lemma {:induction false} LineAppend(ws: seq<string>, w: string)
    requires ws != []
    ensures Line(ws + [w]) == Line(ws) + " " + w
  {
    if |ws| > 1 {
      LineAppend(ws[1..], w);
      assert (ws + [w])[1..] == ws[1..] + [w];
    } else {
      assert (ws + [w])[1..] == [w];
    }
  }

  /** The lines joined by a line break and a one-space indent. */
  function Text(lines: seq<seq<string>>): string {
    if lines == [] then ""
    else if |lines| == 1 then Line(lines[0])
    else Text(lines[..|lines| - 1]) + "\n " + Line(lines[|lines| - 1])
  }

  function Concat(lines: seq<seq<string>>): seq<string> {
    if lines == [] then [] else lines[0] + Concat(lines[1..])
  }

  lemma {:induction false} ConcatAppend(lines: seq<seq<string>>, last: seq<string>)
    ensures Concat(lines + [last]) == Concat(lines) + last
  {
    if lines == [] {
      assert lines + [last] == [last];
      assert Concat([last]) == last + Concat([]) == last;
    } else {
      ConcatAppend(lines[1..], last);
      assert (lines + [last])[1..] == lines[1..] + [last];
    }
  }

  /** A line fits: the leading quote or indent and the words take at most `width` bytes. */
  predicate Fits(line: seq<string>, width: nat) {
    1 + Bytes(Line(line)) <= width
  }

  ghost predicate AllFit(lines: seq<seq<string>>, width: nat) {
    forall i :: 0 <= i < |lines| ==> Fits(lines[i], width)
  }

  /** Every word leaves room for the leading character and the closing quote. */
  ghost predicate Narrow(ws: seq<string>, width: nat) {
    forall i :: 0 <= i < |ws| ==> Bytes(ws[i]) + 2 <= width
  }

  // ---------------------------------------------------------------------------
  // Greedy is optimal
  // ---------------------------------------------------------------------------

  /** The length of a line after one more word. */
  function Extend(length: nat, w: string): nat {
    if length > 1 then length + 1 + Bytes(w) else 1 + Bytes(w)
  }

  function ExtendAll(length: nat, ws: seq<string>): nat
    decreases |ws|
  {
    if ws == [] then length else ExtendAll(Extend(length, ws[0]), ws[1..])
  }

  lemma {:induction false} ExtendAllGrows(length: nat, ws: seq<string>)
    requires length >= 1
    ensures ExtendAll(length, ws) >= length
    decreases |ws|
  {
    if ws != [] {
      ExtendAllGrows(Extend(length, ws[0]), ws[1..]);
    }
  }

  /** Extending an empty line word by word gives the line's length. */
  lemma {:induction false} ExtendAllIsLength(length: nat, ws: seq<string>)
    requires AllWords(ws) && length >= 1
    ensures ExtendAll(length, ws) ==
              if ws == [] then length else (if length > 1 then length + 1 else 1) + Bytes(Line(ws))
    decreases |ws|
  {
    if ws != [] {
      ExtendAllIsLength(Extend(length, ws[0]), ws[1..]);
      if |ws| > 1 {
        BytesAppend(ws[0] + " ", Line(ws[1..]));
        BytesAppend(ws[0], " ");
      }
    }
  }

  /** The line breaks greedy filling makes from a line of the given length. */
  function GreedyBreaks(length: nat, ws: seq<string>, width: nat): nat
    decreases |ws|
  {
    if ws == [] then 0
    else if length + Bytes(ws[0]) + 1 > width then 1 + GreedyBreaks(1 + Bytes(ws[0]), ws[1..], width)
    else GreedyBreaks(Extend(length, ws[0]), ws[1..], width)
  }

  /** Greedy stays ahead: set against any way of breaking the same words into fitting lines, of which
      `line` is still to go on the current line and `rest` are the further lines, greedy makes no more
      breaks when its current line is no longer, and at most one more in any case. */
  lemma {:induction false} GreedyStaysAhead(g: nat, p: nat, line: seq<string>, rest: seq<seq<string>>, width: nat)
    requires g >= 1 && p >= 1
    requires AllWords(line + Concat(rest)) && Narrow(line + Concat(rest), width)
    requires ExtendAll(p, line) <= width && forall i :: 0 <= i < |rest| ==> ExtendAll(1, rest[i]) <= width
    ensures GreedyBreaks(g, line + Concat(rest), width) <= |rest| + if g <= p then 0 else 1
    decreases |rest|, |line|
  {
    if line == [] {
      if rest != [] {
        assert line + Concat(rest) == rest[0] + Concat(rest[1..]);
        GreedyStaysAhead(g, 1, rest[0], rest[1..], width);
      } else {
        assert line + Concat(rest) == [];
      }
    } else {
      var w, ws := line[0], line + Concat(rest);
      assert ws[0] == w && ws[1..] == line[1..] + Concat(rest);
      ExtendAllGrows(Extend(p, w), line[1..]);
      var g' := if g + Bytes(w) + 1 > width then 1 + Bytes(w) else Extend(g, w);
      GreedyStaysAhead(g', Extend(p, w), line[1..], rest, width);
    }
  }

  /** No layout of the words into fitting lines has fewer lines than greedy filling. */
  lemma GreedyIsBest(ws: seq<string>, other: seq<seq<string>>, width: nat)
    requires AllWords(ws) && Narrow(ws, width)
    requires Concat(other) == ws && AllFit(other, width) && other != []
    ensures 1 + GreedyBreaks(1, ws, width) <= |other|
  {
    ConcatPrefix(other);
    forall i | 0 <= i < |other| ensures ExtendAll(1, other[i]) <= width {
      ExtendAllIsLength(1, other[i]);
    }
    assert other[0] + Concat(other[1..]) == ws;
    GreedyStaysAhead(1, 1, other[0], other[1..], width);
  }

  lemma {:induction false} ConcatPrefix(lines: seq<seq<string>>)
    requires AllWords(Concat(lines))
    ensures forall i :: 0 <= i < |lines| ==> AllWords(lines[i])
  {
    if lines != [] {
      var ws := Concat(lines);
      assert forall i :: 0 <= i < |lines[0]| ==> lines[0][i] == ws[i];
      assert forall i :: 0 <= i < |Concat(lines[1..])| ==> Concat(lines[1..])[i] == ws[|lines[0]| + i];
      ConcatPrefix(lines[1..]);
    }
  }

  // ---------------------------------------------------------------------------
  // The wrapping loop
  // ---------------------------------------------------------------------------

  /** The layout built so far: its text, its words, and the length of its last line. */
  ghost predicate Building(lines: seq<seq<string>>, text: string, ws: seq<string>, lineLen: nat) {
    && lines != []
    && text == Text(lines)
    && Concat(lines) == ws && AllWords(ws)
    && lineLen == 1 + Bytes(Line(lines[|lines| - 1]))
    && Words(text) == ws
  }

  lemma NewLine(lines: seq<seq<string>>, text: string, ws: seq<string>, lineLen: nat, w: string)
    requires Building(lines, text, ws, lineLen) && IsWord(w)
    ensures Building(lines + [[w]], text + "\n " + w, ws + [w], 1 + Bytes(w))
  {
    var lines' := lines + [[w]];
    ConcatAppend(lines, [w]);
    assert lines'[..|lines'| - 1] == lines && Line([w]) == w;
    assert text + "\n " + w == text + ("\n " + w);
    WordsSplitAtSpace(text, "\n " + w);
    assert ("\n " + w)[1..] == " " + w;
    assert (" " + w)[1..] == w;
    WordsOfWord(w);
  }

  lemma SameLine(lines: seq<seq<string>>, text: string, ws: seq<string>, lineLen: nat, w: string)
    requires Building(lines, text, ws, lineLen) && IsWord(w) && lineLen > 1
    ensures var n := |lines| - 1;
            Building(lines[..n] + [lines[n] + [w]], text + " " + w, ws + [w], lineLen + 1 + Bytes(w))
  {
    var n := |lines| - 1;
    var front, last := lines[..n], lines[n];
    assert lines == front + [last] && last != [];
    SameLineText(front, last, w);
    SameLineWords(front, last, w);
    LineAppend(last, w);
    BytesAppend(Line(last) + " ", w);
    BytesAppend(Line(last), " ");
    OneMoreWord(text, w);
  }

  lemma SameLineWords(front: seq<seq<string>>, last: seq<string>, w: string)
    ensures Concat(front + [last + [w]]) == Concat(front + [last]) + [w]
  {
    ConcatAppend(front, last);
    ConcatAppend(front, last + [w]);
  }

  lemma OneMoreWord(text: string, w: string)
    requires IsWord(w)
    ensures Words(text + " " + w) == Words(text) + [w]
  {
    WordsSplitAtSpace(text, " " + w);
    assert text + " " + w == text + (" " + w) && (" " + w)[1..] == w;
    WordsOfWord(w);
  }

  lemma SameLineText(front: seq<seq<string>>, last: seq<string>, w: string)
    requires last != []
    ensures Text(front + [last + [w]]) == Text(front + [last]) + " " + w
  {
    LineAppend(last, w);
    var a, b := front + [last], front + [last + [w]];
    assert a[..|front|] == front == b[..|front|];
    if front != [] {
      assert Text(b) == Text(front) + "\n " + (Line(last) + " " + w);
    }
  }

  lemma NothingYet()
    ensures Building([[]], "", [], 1)
  {
  }

  /** A word put on a last line that is still empty. */
  lemma EmptyLastLine(lines: seq<seq<string>>, text: string, ws: seq<string>, w: string)
    requires Building(lines, text, ws, 1) && IsWord(w)
    ensures lines[|lines| - 1] == []
    ensures Building(lines[..|lines| - 1] + [[w]], text + w, ws + [w], 1 + Bytes(w))
  {
    ConcatPrefix(lines);
    var front := lines[..|lines| - 1];
    assert lines == front + [[]];
    SameLineWords(front, [], w);
    assert [] + [w] == [w] && Line([w]) == w && (front + [[w]])[..|front|] == front;
    if front == [] {
      assert text == "" && "" + w == w;
      WordsOfWord(w);
    } else {
      assert text == Text(front) + "\n " + "";
      AfterIndent(Text(front), w);
    }
  }

  lemma AfterIndent(t: string, w: string)
    requires IsWord(w)
    ensures t + "\n " + "" + w == t + "\n " + w
    ensures Words(t + "\n " + w) == Words(t + "\n " + "") + [w]
  {
    hide Words;
    var broken := t + "\n";
    assert t + "\n " + "" == broken + " " && t + "\n " + w == broken + " " + w;
    WordsSplitAtSpace(broken, " ");
    assert " "[1..] == "" && Words("") == [] by { NoWords(); }
    OneMoreWord(broken, w);
  }

  lemma NoWords()
    ensures Words("") == []
  {
  }

  /** Content that is too wide is broken between words: the words and their order survive, whatever the
      width. When every word leaves room for the two quotes, every line fits (the closing quote comes on
      top of the last one) and no breaking into fitting lines has fewer lines. */
  method WrapContent(content: string, width: nat) returns (result: string, ghost lines: seq<seq<string>>)
    ensures |result| >= 2 && result[0] == '\"' && result[|result| - 1] == '\"'
    ensures Words(result[1..|result| - 1]) == Words(content)
    ensures Bytes(content) <= width ==> result == "\"" + content + "\""
    ensures Bytes(content) > width ==>
              lines != [] && result == "\"" + Text(lines) + "\"" && Concat(lines) == Words(content)
    ensures Bytes(content) > width >= 1 && Narrow(Words(content), width) ==>
              && AllFit(lines, width)
              && forall other :: other != [] && Concat(other) == Words(content) && AllFit(other, width) ==> |lines| <= |other|
  {
    if Bytes(content) <= width {
      return "\"" + content + "\"", [];
    }
    hide Building, GreedyBreaks, Words, Bytes, IsSpace;
    var words := Words(content);
    WordsAreWords(content);
    ghost var text := "";
    result := "\"";
    var lineLen := 1;
    lines := [[]];
    NothingYet();
    for i := 0 to |words|
      invariant Building(lines, text, words[..i], lineLen) && result == "\"" + text
      invariant |lines| + GreedyBreaks(lineLen, words[i..], width) == 1 + GreedyBreaks(1, words, width)
      invariant width >= 1 && Narrow(words, width) ==> AllFit(lines, width)
    {
      var word := words[i];
      assert words[..i + 1] == words[..i] + [word] && words[i..][1..] == words[i + 1..];
      lines, text, result, lineLen := AddWord(lines, text, words[..i], lineLen, result, word, width);
    }
    assert words[..|words|] == words && words[|words|..] == [];
    result := result + "\"";
    forall other | other != [] && Concat(other) == words && AllFit(other, width) && Narrow(words, width)
      ensures |lines| <= |other|
    {
      GreedyIsBest(words, other, width);
    }
  }

  /** The body of the loop: break the line, or separate by a space, or neither at the start of a line. */
  method AddWord(ghost lines: seq<seq<string>>, ghost text: string, ghost ws: seq<string>, lineLen: nat,
                 result: string, word: string, width: nat)
    returns (ghost lines': seq<seq<string>>, ghost text': string, result': string, lineLen': nat)
    requires Building(lines, text, ws, lineLen) && IsWord(word) && result == "\"" + text
    ensures Building(lines', text', ws + [word], lineLen') && result' == "\"" + text'
    ensures var breaks := lineLen + Bytes(word) + 1 > width;
            && |lines'| == |lines| + (if breaks then 1 else 0)
            && lineLen' == if breaks then 1 + Bytes(word) else Extend(lineLen, word)
    ensures AllFit(lines, width) && Bytes(word) + 2 <= width ==> AllFit(lines', width)
  {
    result', lineLen' := result, lineLen;
    if lineLen + Bytes(word) + 1 > width {
      NewLine(lines, text, ws, lineLen, word);
      Glue(text, "\n", " ", word);
      lines', text' := lines + [[word]], text + "\n " + word;
      result' := result' + "\n" + " ";
      lineLen' := 1;
    } else if lineLen > 1 {
      SameLine(lines, text, ws, lineLen, word);
      Glue(text, "", " ", word);
      lines', text' := lines[..|lines| - 1] + [lines[|lines| - 1] + [word]], text + " " + word;
      result' := result' + " ";
      lineLen' := lineLen' + 1;
    } else {
      EmptyLastLine(lines, text, ws, word);
      Glue(text, "", "", word);
      lines', text' := lines[..|lines| - 1] + [[word]], text + word;
    }
    result' := result' + word;
    lineLen' := lineLen' + Bytes(word);
  }

  lemma Glue(text: string, a: string, b: string, word: string)
    ensures "\"" + text + a + b + word == "\"" + (text + (a + b) + word)
    ensures a == "" ==> "\"" + text + a == "\"" + text && a + b == b
    ensures b == "" ==> text + b == text
    ensures a == "\n" && b == " " ==> a + b == "\n "
  {
  }
}
